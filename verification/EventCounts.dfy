/** What logging a stream of events leaves in counters, caches and predictor: how often which
    counter rises, and which accesses which cache has seen. */
module EventCounts {
  import opened CacheSim
  import opened EventStream

  datatype Kind = Fetch | Read | Write | CondBranch | IndBranch

  predicate IsKind(r: EventStream.Ref, k: Kind) {
    match k
    case Fetch => r.I?
    case Read => r.R?
    case Write => r.W?
    case CondBranch => r.C?
    case IndBranch => r.B?
  }

  /** An event is logged unless it has a guard that is false. */
  predicate Happens(e: Logged, env: Env) {
    e.Always? || env(e.guard) != 0
  }

  /** The events of one kind and source line, by their positions. */
  ghost function Events(s: seq<Logged>, p: nat, k: Kind, env: Env): set<nat> {
    set i: nat | i < |s| && Happens(s[i], env) && s[i].ref.inode.parent == p && IsKind(s[i].ref, k)
  }

  /** The address and size of an access. */
  function Where(r: EventStream.Ref, env: Env): Access
    requires r.I? || r.R? || r.W?
  {
    match r
    case I(n) => Access(n.addr, n.len)
    case R(_, ea, sz) => Access(env(ea), sz)
    case W(_, ea, sz) => Access(env(ea), sz)
  }

  /** An access misses in the first level: a fetch in the instruction cache, others in the data cache. */
  predicate LooksFirst(b: Machine, r: EventStream.Ref, env: Env, cfg: Config)
    requires MachineOk(b, cfg) && RefFits(r, env, cfg) && cfg.cacheSim
  {
    (r.I? || r.R? || r.W?)
    && var (l1, x) := (if r.I? then b.i1 else b.d1, Where(r, env));
       CacheSim.Ref(l1.sets, x.a, x.size, l1.lineSize, l1.assoc).1
  }

  /** And in the last level too, which only sees what misses in the first. */
  predicate LooksLast(b: Machine, r: EventStream.Ref, env: Env, cfg: Config)
    requires MachineOk(b, cfg) && RefFits(r, env, cfg) && cfg.cacheSim
  {
    LooksFirst(b, r, env, cfg)
    && CacheSim.Ref(b.ll.sets, Where(r, env).a, Where(r, env).size, b.ll.lineSize, b.ll.assoc).1
  }

  lemma FitsAt(s: seq<Logged>, i: nat, env: Env, cfg: Config)
    requires AllFit(s, env, cfg) && i < |s|
    ensures RefFits(s[i].ref, env, cfg)
  {
    hide RefFits;
  }

  /** Event i misses in the first level, as the events before it have left the caches. */
  ghost predicate MissesFirst(m: Machine, s: seq<Logged>, i: nat, env: Env, cfg: Config)
    requires MachineOk(m, cfg) && AllFit(s, env, cfg) && i < |s| && cfg.cacheSim
  {
    hide MachineOk, RefFits;
    FitsAt(s, i, env, cfg);
    LooksFirst(LogAll(m, s[..i], env, cfg), s[i].ref, env, cfg)
  }

  ghost predicate MissesLast(m: Machine, s: seq<Logged>, i: nat, env: Env, cfg: Config)
    requires MachineOk(m, cfg) && AllFit(s, env, cfg) && i < |s| && cfg.cacheSim
  {
    hide MachineOk, RefFits;
    FitsAt(s, i, env, cfg);
    LooksLast(LogAll(m, s[..i], env, cfg), s[i].ref, env, cfg)
  }

  ghost function Misses(m: Machine, s: seq<Logged>, p: nat, k: Kind, last: bool, env: Env, cfg: Config): set<nat>
    requires MachineOk(m, cfg) && AllFit(s, env, cfg)
  {
    if !cfg.cacheSim then {} else
    set i: nat | i < |s| && i in Events(s, p, k, env)
                 && if last then MissesLast(m, s, i, env, cfg) else MissesFirst(m, s, i, env, cfg)
  }

  // ---------------------------------------------------------------- counters

  /** A counter has risen by the number of events of its kind and line, and by the misses of exactly
      their lookups. */
  ghost predicate Rises(x: CC, y: CC, m: Machine, s: seq<Logged>, p: nat, k: Kind, env: Env, cfg: Config)
    requires MachineOk(m, cfg) && AllFit(s, env, cfg)
  {
    && y.a == x.a + (if k == Fetch || cfg.cacheSim then |Events(s, p, k, env)| else 0)
    && y.m1 == x.m1 + |Misses(m, s, p, k, false, env, cfg)|
    && y.mL == x.mL + |Misses(m, s, p, k, true, env, cfg)|
  }

  lemma EventsNext(s: seq<Logged>, p: nat, k: Kind, env: Env)
    requires s != []
    ensures var n := |s| - 1;
            Events(s, p, k, env) == Events(s[..n], p, k, env)
              + if Happens(s[n], env) && s[n].ref.inode.parent == p && IsKind(s[n].ref, k) then {n} else {}
    ensures |s| - 1 !in Events(s[..|s| - 1], p, k, env)
  {
  }

  lemma BranchesNext(s: seq<Logged>, p: nat, env: Env)
    requires s != []
    ensures var (n, r) := (|s| - 1, s[|s| - 1].ref);
            var on := Happens(s[n], env) && r.inode.parent == p;
            && |Events(s, p, CondBranch, env)| == |Events(s[..n], p, CondBranch, env)| + (if on && r.C? then 1 else 0)
            && |Events(s, p, IndBranch, env)| == |Events(s[..n], p, IndBranch, env)| + (if on && r.B? then 1 else 0)
  {
    hide Events;
    EventsNext(s, p, CondBranch, env);
    EventsNext(s, p, IndBranch, env);
  }

  lemma MissesSame(m: Machine, s: seq<Logged>, i: nat, env: Env, cfg: Config)
    requires MachineOk(m, cfg) && AllFit(s, env, cfg) && cfg.cacheSim && i < |s| - 1
    ensures AllFit(s[..|s| - 1], env, cfg)
    ensures MissesFirst(m, s[..|s| - 1], i, env, cfg) <==> MissesFirst(m, s, i, env, cfg)
    ensures MissesLast(m, s[..|s| - 1], i, env, cfg) <==> MissesLast(m, s, i, env, cfg)
  {
    hide RefFits, MachineOk, Log;
    assert s[..|s| - 1][..i] == s[..i];
  }

  lemma MissesNext(m: Machine, s: seq<Logged>, p: nat, k: Kind, last: bool, env: Env, cfg: Config)
    requires MachineOk(m, cfg) && AllFit(s, env, cfg) && s != []
    ensures AllFit(s[..|s| - 1], env, cfg)
    ensures var n := |s| - 1;
            var more := cfg.cacheSim && n in Events(s, p, k, env)
                        && (if last then MissesLast(m, s, n, env, cfg) else MissesFirst(m, s, n, env, cfg));
            && Misses(m, s, p, k, last, env, cfg) == Misses(m, s[..n], p, k, last, env, cfg)
              + (if more then {n} else {})
            && n !in Misses(m, s[..n], p, k, last, env, cfg)
  {
    hide RefFits, MachineOk, MissesFirst, MissesLast;
    var n := |s| - 1;
    EventsNext(s, p, k, env);
    if cfg.cacheSim {
      forall i | 0 <= i < n
        ensures MissesFirst(m, s[..n], i, env, cfg) <==> MissesFirst(m, s, i, env, cfg)
        ensures MissesLast(m, s[..n], i, env, cfg) <==> MissesLast(m, s, i, env, cfg)
      {
        MissesSame(m, s, i, env, cfg);
      }
    }
  }

  function Raised(c: CC, m1: bool, mL: bool): CC {
    CC(c.a + 1, c.m1 + (if m1 then 1 else 0), c.mL + if mL then 1 else 0)
  }

  /** What logging an event at a machine does to the counters of line p. */
  lemma LogOnce(b: Machine, r: EventStream.Ref, p: nat, env: Env, cfg: Config)
    requires MachineOk(b, cfg) && RefFits(r, env, cfg)
    ensures var (y, z) := (Line(b, p), Line(Log(b, r, env, cfg), p));
            var first := cfg.cacheSim && LooksFirst(b, r, env, cfg);
            var last := cfg.cacheSim && LooksLast(b, r, env, cfg);
            if r.inode.parent != p then z == y
            else if r.I? then z == y.(ir := Raised(y.ir, first, last))
            else if r.R? then z == (if cfg.cacheSim then y.(dr := Raised(y.dr, first, last)) else y)
            else if r.W? then z == (if cfg.cacheSim then y.(dw := Raised(y.dw, first, last)) else y)
            else if r.C? then z == y.(bc := y.bc + 1)
            else z == y.(bi := y.bi + 1)
  {
    hide CacheSim.Ref, Fits;
  }

  lemma LastLogged(m: Machine, s: seq<Logged>, env: Env, cfg: Config)
    requires MachineOk(m, cfg) && AllFit(s, env, cfg) && s != []
    ensures AllFit(s[..|s| - 1], env, cfg) && RefFits(s[|s| - 1].ref, env, cfg)
    ensures var (n, b) := (|s| - 1, LogAll(m, s[..|s| - 1], env, cfg));
            LogAll(m, s, env, cfg) == if Happens(s[n], env) then Log(b, s[n].ref, env, cfg) else b
  {
    hide Log, MachineOk, RefFits;
  }

  /** A counter of line p after the last event of s, from what it was before. */
  ghost predicate Steps(y: CC, z: CC, m: Machine, s: seq<Logged>, p: nat, k: Kind, env: Env, cfg: Config)
    requires MachineOk(m, cfg) && AllFit(s, env, cfg) && s != []
  {
    var n := |s| - 1;
    var counts := Happens(s[n], env) && s[n].ref.inode.parent == p && IsKind(s[n].ref, k)
      && (k == Fetch || cfg.cacheSim);
    z == if counts then Raised(y, cfg.cacheSim && MissesFirst(m, s, n, env, cfg),
                               cfg.cacheSim && MissesLast(m, s, n, env, cfg)) else y
  }

  lemma LogSteps(m: Machine, s: seq<Logged>, p: nat, env: Env, cfg: Config)
    requires MachineOk(m, cfg) && AllFit(s, env, cfg) && s != []
    ensures AllFit(s[..|s| - 1], env, cfg)
    ensures var (n, y, z) := (|s| - 1, Line(LogAll(m, s[..|s| - 1], env, cfg), p), Line(LogAll(m, s, env, cfg), p));
            && Steps(y.ir, z.ir, m, s, p, Fetch, env, cfg) && Steps(y.dr, z.dr, m, s, p, Read, env, cfg)
            && Steps(y.dw, z.dw, m, s, p, Write, env, cfg)
            && z.bc == y.bc + (if Happens(s[n], env) && s[n].ref.inode.parent == p && s[n].ref.C? then 1 else 0)
            && z.bi == y.bi + (if Happens(s[n], env) && s[n].ref.inode.parent == p && s[n].ref.B? then 1 else 0)
  {
    hide LogAll, MachineOk, RefFits, LooksFirst, LooksLast, Log, Line, AllFit;
    LastLogged(m, s, env, cfg);
    LogOnce(LogAll(m, s[..|s| - 1], env, cfg), s[|s| - 1].ref, p, env, cfg);
  }

  /** What one more event does to a counter. */
  lemma RisesNext(x: CC, y: CC, z: CC, m: Machine, s: seq<Logged>, p: nat, k: Kind, env: Env, cfg: Config)
    requires MachineOk(m, cfg) && AllFit(s, env, cfg) && s != []
    requires AllFit(s[..|s| - 1], env, cfg) && Rises(x, y, m, s[..|s| - 1], p, k, env, cfg)
    requires Steps(y, z, m, s, p, k, env, cfg) && (k == Fetch || k == Read || k == Write)
    ensures Rises(x, z, m, s, p, k, env, cfg)
  {
    hide RefFits, MachineOk, MissesFirst, MissesLast, Misses;
    EventsNext(s, p, k, env);
    MissesNext(m, s, p, k, false, env, cfg);
    MissesNext(m, s, p, k, true, env, cfg);
  }

  /** Logging a stream raises each counter of each source line by exactly the events of its kind that
      belong to the line, its miss counters by exactly those of them whose lookup misses, and nothing
      else. */
  lemma {:induction false} CountersRise(m: Machine, s: seq<Logged>, p: nat, env: Env, cfg: Config)
    requires MachineOk(m, cfg) && AllFit(s, env, cfg)
    ensures var (x, y) := (Line(m, p), Line(LogAll(m, s, env, cfg), p));
            && Rises(x.ir, y.ir, m, s, p, Fetch, env, cfg)
            && Rises(x.dr, y.dr, m, s, p, Read, env, cfg)
            && Rises(x.dw, y.dw, m, s, p, Write, env, cfg)
            && y.bc == x.bc + |Events(s, p, CondBranch, env)|
            && y.bi == x.bi + |Events(s, p, IndBranch, env)|
  {
    hide RefFits, MachineOk, Line, Rises, Steps, Events, Log, LogAll, AllFit, Happens;
    if s == [] {
      NothingLogged(m, env, cfg);
      NothingRises(Line(m, p), m, p, env, cfg);
    } else {
      var n := |s| - 1;
      LogSteps(m, s, p, env, cfg);
      LastLogged(m, s, env, cfg);
      CountersRise(m, s[..n], p, env, cfg);
      var x, y, z := Line(m, p), Line(LogAll(m, s[..n], env, cfg), p), Line(LogAll(m, s, env, cfg), p);
      RisesNext(x.ir, y.ir, z.ir, m, s, p, Fetch, env, cfg);
      RisesNext(x.dr, y.dr, z.dr, m, s, p, Read, env, cfg);
      RisesNext(x.dw, y.dw, z.dw, m, s, p, Write, env, cfg);
      BranchesNext(s, p, env);
    }
  }

  lemma NothingLogged(m: Machine, env: Env, cfg: Config)
    requires MachineOk(m, cfg)
    ensures AllFit([], env, cfg) && LogAll(m, [], env, cfg) == m
  {
  }

  lemma NothingRises(x: LineCC, m: Machine, p: nat, env: Env, cfg: Config)
    requires MachineOk(m, cfg)
    ensures Rises(x.ir, x.ir, m, [], p, Fetch, env, cfg) && Rises(x.dr, x.dr, m, [], p, Read, env, cfg)
            && Rises(x.dw, x.dw, m, [], p, Write, env, cfg)
    ensures Events([], p, CondBranch, env) == {} && Events([], p, IndBranch, env) == {}
  {
    hide MachineOk;
    forall k: Kind
      ensures Events([], p, k, env) == {} && Misses(m, [], p, k, false, env, cfg) == {}
              && Misses(m, [], p, k, true, env, cfg) == {}
    {
    }
  }

  // ---------------------------------------------------------- caches, predictor

  /** The fetches, or the data accesses, of a stream in order. */
  ghost function Accesses(s: seq<Logged>, fetches: bool, env: Env): seq<Access> {
    if s == [] then [] else
    var n := |s| - 1;
    Accesses(s[..n], fetches, env)
    + if Happens(s[n], env) && (if fetches then s[n].ref.I? else s[n].ref.R? || s[n].ref.W?)
      then [Where(s[n].ref, env)] else []
  }

  /** The accesses that miss in the first level, in order. */
  ghost function Missed(m: Machine, s: seq<Logged>, env: Env, cfg: Config): seq<Access>
    requires MachineOk(m, cfg) && AllFit(s, env, cfg) && cfg.cacheSim
  {
    if s == [] then [] else
    var n := |s| - 1;
    Missed(m, s[..n], env, cfg)
    + if Happens(s[n], env) && MissesFirst(m, s, n, env, cfg) then [Where(s[n].ref, env)] else []
  }

  /** The consultations of the predictor: where a conditional branch is and whether it is taken, the
      guard being inverted or not, and where an indirect one goes. */
  function Consulted(s: seq<Logged>, env: Env): seq<Prediction> {
    if s == [] then [] else
    var n := |s| - 1;
    var r := s[n].ref;
    Consulted(s[..n], env)
    + if !Happens(s[n], env) then []
      else if r.C? then [Cond(r.inode.addr, if (env(r.taken.guard) != 0) != r.taken.inverted then 1 else 0)]
      else if r.B? then [Ind(r.inode.addr, env(r.dst))] else []
  }

  ghost predicate AccessesFit(x: seq<Access>, lineSize: nat) {
    forall i :: 0 <= i < |x| ==> Fits(x[i].a, x[i].size, lineSize)
  }

  /** The cache c has seen the accesses x. */
  ghost predicate Has(c: Cache, before: Cache, x: seq<Access>)
    requires SetsOk(before.sets, before.assoc) && AccessesFit(x, before.lineSize)
  {
    c == before.(sets := RunRefs(before.sets, x, before.lineSize, before.assoc).0)
  }

  lemma HasNone(c: Cache)
    requires SetsOk(c.sets, c.assoc)
    ensures AccessesFit([], c.lineSize) && Has(c, c, [])
  {
  }

  lemma HasNext(c: Cache, before: Cache, x: seq<Access>, a: Access)
    requires SetsOk(before.sets, before.assoc) && AccessesFit(x, before.lineSize) && Has(c, before, x)
    requires Fits(a.a, a.size, before.lineSize) && SetsOk(c.sets, c.assoc) && c.lineSize == before.lineSize
    ensures AccessesFit(x + [a], before.lineSize)
    ensures Has(Seen(c, a), before, x + [a])
  {
    hide CacheSim.Ref;
    assert (x + [a])[..|x|] == x;
  }

  /** What logging an event does to the caches and the predictor. */
  lemma LookOnce(b: Machine, r: EventStream.Ref, env: Env, cfg: Config)
    requires MachineOk(b, cfg) && RefFits(r, env, cfg)
    ensures var u := Log(b, r, env, cfg);
            && (r.C? ==> u == b.(lines := u.lines, predictions := b.predictions
                 + [Cond(r.inode.addr, if (env(r.taken.guard) != 0) != r.taken.inverted then 1 else 0)]))
            && (r.B? ==> u == b.(lines := u.lines, predictions := b.predictions + [Ind(r.inode.addr, env(r.dst))]))
            && ((r.I? || r.R? || r.W?) && !cfg.cacheSim ==> u == b.(lines := u.lines))
            && ((r.I? || r.R? || r.W?) && cfg.cacheSim ==>
                  var x := Where(r, env);
                  && u.predictions == b.predictions
                  && u.i1 == (if r.I? then Seen(b.i1, x) else b.i1) && u.d1 == (if r.I? then b.d1 else Seen(b.d1, x))
                  && u.ll == (if LooksFirst(b, r, env, cfg) then Seen(b.ll, x) else b.ll))
  {
    hide CacheSim.Ref, Fits;
  }

  /** A cache once it has seen an access. */
  function Seen(c: Cache, x: Access): Cache
    requires SetsOk(c.sets, c.assoc) && Fits(x.a, x.size, c.lineSize)
  {
    c.(sets := CacheSim.Ref(c.sets, x.a, x.size, c.lineSize, c.assoc).0)
  }

  lemma CachesOk(m: Machine, cfg: Config)
    requires MachineOk(m, cfg)
    ensures SetsOk(m.i1.sets, m.i1.assoc) && SetsOk(m.d1.sets, m.d1.assoc) && SetsOk(m.ll.sets, m.ll.assoc)
    ensures m.i1.lineSize == cfg.i1Line && m.d1.lineSize == cfg.d1Line && m.ll.lineSize == cfg.llLine
  {
  }

  lemma AccessFits(r: EventStream.Ref, env: Env, cfg: Config)
    requires RefFits(r, env, cfg) && cfg.cacheSim && (r.I? || r.R? || r.W?)
    ensures var x := Where(r, env);
            Fits(x.a, x.size, if r.I? then cfg.i1Line else cfg.d1Line) && Fits(x.a, x.size, cfg.llLine)
  {
  }

  lemma FetchesNext(m: Machine, s: seq<Logged>, env: Env, cfg: Config)
    requires MachineOk(m, cfg) && AllFit(s, env, cfg) && s != [] && cfg.cacheSim && AllFit(s[..|s| - 1], env, cfg)
    requires var (x, b) := (Accesses(s[..|s| - 1], true, env), LogAll(m, s[..|s| - 1], env, cfg));
             AccessesFit(x, m.i1.lineSize) && Has(b.i1, m.i1, x)
    ensures var (x, u) := (Accesses(s, true, env), LogAll(m, s, env, cfg));
            AccessesFit(x, m.i1.lineSize) && Has(u.i1, m.i1, x)
  {
    hide Has, AccessesFit, LogAll, LooksFirst, Log, AllFit, Seen, MachineOk, RefFits, SetsOk, Fits, Where;
    CachesOk(m, cfg);
    CachesOk(LogAll(m, s[..|s| - 1], env, cfg), cfg);
    var n := |s| - 1;
    var b, r, x := LogAll(m, s[..n], env, cfg), s[n].ref, Accesses(s[..n], true, env);
    LastLogged(m, s, env, cfg);
    LookOnce(b, r, env, cfg);
    if Happens(s[n], env) && r.I? {
      AccessFits(r, env, cfg);
      HasNext(b.i1, m.i1, x, Where(r, env));
    } else {
      assert x + [] == x;
    }
  }

  lemma DataNext(m: Machine, s: seq<Logged>, env: Env, cfg: Config)
    requires MachineOk(m, cfg) && AllFit(s, env, cfg) && s != [] && cfg.cacheSim && AllFit(s[..|s| - 1], env, cfg)
    requires var (x, b) := (Accesses(s[..|s| - 1], false, env), LogAll(m, s[..|s| - 1], env, cfg));
             AccessesFit(x, m.d1.lineSize) && Has(b.d1, m.d1, x)
    ensures var (x, u) := (Accesses(s, false, env), LogAll(m, s, env, cfg));
            AccessesFit(x, m.d1.lineSize) && Has(u.d1, m.d1, x)
  {
    hide Has, AccessesFit, LogAll, LooksFirst, Log, AllFit, Seen, MachineOk, RefFits, SetsOk, Fits, Where;
    CachesOk(m, cfg);
    CachesOk(LogAll(m, s[..|s| - 1], env, cfg), cfg);
    var n := |s| - 1;
    var b, r, x := LogAll(m, s[..n], env, cfg), s[n].ref, Accesses(s[..n], false, env);
    LastLogged(m, s, env, cfg);
    LookOnce(b, r, env, cfg);
    if Happens(s[n], env) && (r.R? || r.W?) {
      AccessFits(r, env, cfg);
      HasNext(b.d1, m.d1, x, Where(r, env));
    } else {
      assert x + [] == x;
    }
  }

  lemma MissedNext(m: Machine, s: seq<Logged>, env: Env, cfg: Config)
    requires MachineOk(m, cfg) && AllFit(s, env, cfg) && s != [] && cfg.cacheSim && AllFit(s[..|s| - 1], env, cfg)
    requires var (x, b) := (Missed(m, s[..|s| - 1], env, cfg), LogAll(m, s[..|s| - 1], env, cfg));
             AccessesFit(x, m.ll.lineSize) && Has(b.ll, m.ll, x)
    ensures var (x, u) := (Missed(m, s, env, cfg), LogAll(m, s, env, cfg));
            AccessesFit(x, m.ll.lineSize) && Has(u.ll, m.ll, x)
  {
    hide Has, AccessesFit, LogAll, LooksFirst, Log, AllFit, Seen, MachineOk, RefFits, SetsOk, Fits, Where;
    CachesOk(m, cfg);
    CachesOk(LogAll(m, s[..|s| - 1], env, cfg), cfg);
    var n := |s| - 1;
    var b, r, x := LogAll(m, s[..n], env, cfg), s[n].ref, Missed(m, s[..n], env, cfg);
    LastLogged(m, s, env, cfg);
    LookOnce(b, r, env, cfg);
    if Happens(s[n], env) && MissesFirst(m, s, n, env, cfg) {
      FirstIsAccess(b, r, env, cfg);
      AccessFits(r, env, cfg);
      HasNext(b.ll, m.ll, x, Where(r, env));
    } else {
      assert x + [] == x;
    }
  }

  lemma FirstIsAccess(b: Machine, r: EventStream.Ref, env: Env, cfg: Config)
    requires MachineOk(b, cfg) && RefFits(r, env, cfg) && cfg.cacheSim && LooksFirst(b, r, env, cfg)
    ensures r.I? || r.R? || r.W?
  {
    hide CacheSim.Ref;
  }

  /** With simulated caches the instruction cache has seen the fetches, the data cache the reads and
      writes, and the last level what missed in one of them, all in order. */
  lemma {:induction false} CachesSee(m: Machine, s: seq<Logged>, env: Env, cfg: Config)
    requires MachineOk(m, cfg) && AllFit(s, env, cfg) && cfg.cacheSim
    ensures var (u, x, y, z) := (LogAll(m, s, env, cfg), Accesses(s, true, env), Accesses(s, false, env),
                                 Missed(m, s, env, cfg));
            && AccessesFit(x, m.i1.lineSize) && Has(u.i1, m.i1, x)
            && AccessesFit(y, m.d1.lineSize) && Has(u.d1, m.d1, y)
            && AccessesFit(z, m.ll.lineSize) && Has(u.ll, m.ll, z)
  {
    hide RefFits, Has, Log, AccessesFit, Fits, AllFit;
    if s == [] {
      HasNone(m.i1);
      HasNone(m.d1);
      HasNone(m.ll);
    } else {
      LastLogged(m, s, env, cfg);
      CachesSee(m, s[..|s| - 1], env, cfg);
      FetchesNext(m, s, env, cfg);
      DataNext(m, s, env, cfg);
      MissedNext(m, s, env, cfg);
    }
  }

  /** The predictor is consulted for the branches, in order; without simulated caches no cache
      changes. */
  lemma {:induction false} PredictorSees(m: Machine, s: seq<Logged>, env: Env, cfg: Config)
    requires MachineOk(m, cfg) && AllFit(s, env, cfg)
    ensures var u := LogAll(m, s, env, cfg);
            && u.predictions == m.predictions + Consulted(s, env)
            && (!cfg.cacheSim ==> u.i1 == m.i1 && u.d1 == m.d1 && u.ll == m.ll)
  {
    hide RefFits, Log, AllFit, LooksFirst, Seen;
    if s != [] {
      var n := |s| - 1;
      LastLogged(m, s, env, cfg);
      PredictorSees(m, s[..n], env, cfg);
      LookOnce(LogAll(m, s[..n], env, cfg), s[n].ref, env, cfg);
    }
  }
}
