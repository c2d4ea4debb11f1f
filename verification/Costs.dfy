/** Inclusive costs: what a call adds to its call arc at dumps and when it returns. */
module Costs {
  import opened Profile

  // ---------------------------------------------------------------- vectors

  function SubULong(a: ULong, b: ULong): ULong {
    (a - b) % TWO64
  }

  function SubVec(a: Vec, b: Vec): (c: Vec)
    requires |a| == |b|
    ensures |c| == |a| && forall i :: 0 <= i < |c| ==> c[i] == SubULong(a[i], b[i])
  {
    seq(|a|, i requires 0 <= i < |a| => SubULong(a[i], b[i]))
  }

  function ZeroVec(n: nat): (c: Vec)
    ensures |c| == n && forall i :: 0 <= i < n ==> c[i] == 0
  {
    seq(n, _ => 0)
  }

  lemma ModSum(x: int, y: int)
    ensures (x % TWO64 + y % TWO64) % TWO64 == (x + y) % TWO64
    ensures (x % TWO64 + y) % TWO64 == (x + y) % TWO64
    ensures (x + y % TWO64) % TWO64 == (x + y) % TWO64
  {
  }

  lemma WordTelescope(a: ULong, b: ULong, c: ULong)
    ensures AddULong(SubULong(b, a), SubULong(c, b)) == SubULong(c, a)
  {
    ModSum(b - a, c - b);
  }

  /** The differences of two successive settlements add up to the difference over both. */
  lemma Telescope(a: Vec, b: Vec, c: Vec)
    requires |a| == |b| == |c|
    ensures AddVec(SubVec(b, a), SubVec(c, b)) == SubVec(c, a)
  {
    forall i | 0 <= i < |a| ensures AddVec(SubVec(b, a), SubVec(c, b))[i] == SubVec(c, a)[i] {
      WordTelescope(a[i], b[i], c[i]);
    }
  }

  // ----------------------------------------------------- the vector operations

  /** Add the difference of newCost and oldCost to dst, and set oldCost to newCost. */
  method AddDiffCost(dst: array<ULong>, oldCost: array<ULong>, newCost: array<ULong>) returns (isNonzero: bool)
    requires dst.Length == oldCost.Length == newCost.Length
    requires dst != oldCost && dst != newCost && oldCost != newCost
    modifies dst, oldCost
    ensures dst[..] == AddVec(old(dst[..]), SubVec(newCost[..], old(oldCost[..])))
    ensures oldCost[..] == newCost[..]
    ensures isNonzero <==> old(oldCost[..]) != newCost[..]
  {
    isNonzero := false;
    ghost var d, o := dst[..], oldCost[..];
    for i := 0 to dst.Length
      invariant forall j :: 0 <= j < i ==> dst[j] == AddULong(d[j], SubULong(newCost[j], o[j]))
                                           && oldCost[j] == newCost[j]
      invariant forall j :: i <= j < dst.Length ==> dst[j] == d[j] && oldCost[j] == o[j]
      invariant isNonzero <==> exists j :: 0 <= j < i && o[j] != newCost[j]
    {
      if newCost[i] != oldCost[i] {
        WordSum(dst[i], newCost[i], oldCost[i]);
        dst[i] := (dst[i] + (newCost[i] - oldCost[i]) % TWO64) % TWO64;
        oldCost[i] := newCost[i];
        isNonzero := true;
      } else {
        SubSame(newCost[i]);
      }
    }
  }

  lemma WordSum(a: ULong, b: ULong, c: ULong)
    ensures (a + (b - c) % TWO64) % TWO64 == AddULong(a, SubULong(b, c))
  {
  }

  lemma SubSame(a: ULong)
    ensures SubULong(a, a) == 0
  {
  }

  /** The same for a destination that may not exist yet: a new one starts at zero. */
  method AddDiffCostLz(dst0: array?<ULong>, oldCost: array<ULong>, newCost: array<ULong>)
    returns (dst: array<ULong>, isNonzero: bool)
    requires oldCost.Length == newCost.Length && oldCost != newCost
    requires dst0 != null ==> dst0.Length == newCost.Length && dst0 != oldCost && dst0 != newCost
    modifies dst0, oldCost
    ensures if dst0 == null then fresh(dst) else dst == dst0
    ensures dst.Length == newCost.Length && dst != oldCost && dst != newCost
    ensures dst[..] == AddVec(if dst0 == null then ZeroVec(newCost.Length)
            else old(dst0[..]), SubVec(newCost[..], old(oldCost[..])))
    ensures oldCost[..] == newCost[..]
    ensures isNonzero <==> old(oldCost[..]) != newCost[..]
  {
    if dst0 == null {
      dst := new ULong[newCost.Length](_ => 0);
      assert dst[..] == ZeroVec(newCost.Length);
    } else {
      dst := dst0;
    }
    isNonzero := AddDiffCost(dst, oldCost, newCost);
  }

  /** Copy a cost vector to a place that may not exist yet; without a source, zero the place. */
  method CopyCostLz(dst0: array?<ULong>, src: array?<ULong>) returns (dst: array?<ULong>)
    requires dst0 != null && src != null ==> dst0.Length == src.Length && dst0 != src
    modifies dst0
    ensures src == null ==> dst == dst0 && (dst != null ==> dst[..] == ZeroVec(dst.Length))
    ensures src != null ==> && (if dst0 == null then dst != null && fresh(dst) else dst == dst0)
                            && dst != src && dst.Length == src.Length && dst[..] == src[..]
  {
    dst := dst0;
    if src == null {
      if dst != null { ZeroCost(dst); }
      return;
    }
    if dst == null {
      dst := new ULong[src.Length](_ => 0);
    }
    for i := 0 to src.Length
      invariant dst[..i] == src[..i] && dst != src && src[..] == old(src[..])
    {
      dst[i] := src[i];
    }
    assert dst[..src.Length] == dst[..] && src[..src.Length] == src[..];
  }

  /** Add src, if there is one, to dst and zero it. */
  method AddAndZeroCost(dst: array<ULong>, src: array?<ULong>) returns (isNonzero: bool)
    requires src != null ==> dst.Length == src.Length && dst != src
    modifies dst, src
    ensures src == null ==> !isNonzero && dst[..] == old(dst[..])
    ensures src != null ==> && dst[..] == AddVec(old(dst[..]), old(src[..])) && src[..] == ZeroVec(src.Length)
                            && (isNonzero <==> old(src[..]) != ZeroVec(src.Length))
  {
    isNonzero := false;
    if src == null { return; }
    ghost var d, s := dst[..], src[..];
    for i := 0 to src.Length
      invariant forall j :: 0 <= j < i ==> dst[j] == AddULong(d[j], s[j]) && src[j] == 0
      invariant forall j :: i <= j < src.Length ==> dst[j] == d[j] && src[j] == s[j]
      invariant isNonzero <==> exists j :: 0 <= j < i && s[j] != 0
    {
      if src[i] != 0 {
        dst[i] := AddULong(dst[i], src[i]);
        src[i] := 0;
        isNonzero := true;
      }
    }
    if !isNonzero { assert s == ZeroVec(src.Length); }
  }

  /** Is every counter zero?  So it is where there is no vector yet. */
  method IsZeroCost(cost: array?<ULong>) returns (zero: bool)
    ensures zero <==> cost == null || cost[..] == ZeroVec(cost.Length)
  {
    if cost == null { return true; }
    for i := 0 to cost.Length
      invariant forall j :: 0 <= j < i ==> cost[j] == 0
    {
      if cost[i] != 0 { return false; }
    }
    zero := true;
  }

  method ZeroCost(cost: array<ULong>)
    modifies cost
    ensures cost[..] == ZeroVec(cost.Length)
  {
    for i := 0 to cost.Length
      invariant forall j :: 0 <= j < i ==> cost[j] == 0
    {
      cost[i] := 0;
    }
  }

  // ------------------------------------------------------------ the accounting

  datatype Arc = NoArc | Arc(id: nat)

  /** An active or finished call: its arc (none if skipped), how many signal handlers it was entered
      in, the cost it last settled at, the cost when it was entered, and what it has added to its arc. */
  datatype Call = Call(arc: Arc, level: nat, enter: Vec, entered: Vec, paid: Vec)

  /** The cost of the level running and those of the levels interrupted from the outermost, active
      calls from the outermost, finished calls, the cost of each arc since it was last printed, and
      what has been printed of each arc. */
  datatype Account = Account(cost: Vec, below: seq<Vec>, active: seq<Call>, done: seq<Call>,
                             arcs: map<nat, Vec>, printed: map<nat, Vec>)

  ghost predicate CallOk(c: Call, n: nat) {
    |c.enter| == |c.entered| == |c.paid| == n
  }

  ghost predicate AccountOk(st: Account, n: nat) {
    && |st.cost| == n && (forall i :: 0 <= i < |st.below| ==> |st.below[i]| == n)
    && (forall i :: 0 <= i < |st.active| ==> CallOk(st.active[i], n))
    && (forall i :: 0 <= i < |st.done| ==> CallOk(st.done[i], n))
    && (forall a :: a in st.arcs ==> |st.arcs[a]| == n) && (forall a :: a in st.printed ==> |st.printed[a]| == n)
  }

  function ArcCost(arcs: map<nat, Vec>, a: nat, n: nat): (v: Vec)
    requires forall b :: b in arcs ==> |arcs[b]| == n
    ensures |v| == n
  {
    if a in arcs then arcs[a] else ZeroVec(n)
  }

  /** The call's record once it has settled at the current cost. */
  function SettledCall(c: Call, cost: Vec): (d: Call)
    requires CallOk(c, |cost|)
    ensures CallOk(d, |cost|)
  {
    if c.arc.NoArc? then c else c.(enter := cost, paid := AddVec(c.paid, SubVec(cost, c.enter)))
  }

  /** The arcs once the call has settled. */
  function SettledArcs(arcs: map<nat, Vec>, c: Call, cost: Vec): (r: map<nat, Vec>)
    requires CallOk(c, |cost|) && forall a :: a in arcs ==> |arcs[a]| == |cost|
    ensures forall a :: a in r ==> |r[a]| == |cost|
  {
    if c.arc.NoArc? then arcs else arcs[c.arc.id := AddVec(ArcCost(arcs, c.arc.id, |cost|), SubVec(cost, c.enter))]
  }

  function Spend(st: Account, delta: Vec, ghost n: nat): (u: Account)
    requires AccountOk(st, n) && |delta| == n
    ensures AccountOk(u, n)
  {
    st.(cost := AddVec(st.cost, delta))
  }

  function Enter(st: Account, arc: Arc, ghost n: nat): (u: Account)
    requires AccountOk(st, n)
    ensures AccountOk(u, n)
  {
    st.(active := st.active + [Call(arc, |st.below|, st.cost, st.cost, ZeroVec(|st.cost|))])
  }

  function Leave(st: Account, ghost n: nat): (u: Account)
    requires AccountOk(st, n) && st.active != []
    ensures AccountOk(u, n)
  {
    var m := |st.active| - 1;
    st.(active := st.active[..m], done := st.done + [SettledCall(st.active[m], st.cost)],
        arcs := SettledArcs(st.arcs, st.active[m], st.cost))
  }

  /** A dump settles the active calls below k, from the outermost. */
  function DumpTo(st: Account, k: nat, ghost n: nat): (u: Account)
    requires AccountOk(st, n) && k <= |st.active|
    ensures AccountOk(u, n) && u.cost == st.cost && u.below == st.below && u.done == st.done && u.printed == st.printed
            && |u.active| == |st.active|
    ensures forall i :: k <= i < |st.active| ==> u.active[i] == st.active[i]
  {
    if k == 0 then st else
    var t := DumpTo(st, k - 1, n);
    t.(active := t.active[k - 1 := SettledCall(t.active[k - 1], t.cost)],
      arcs := SettledArcs(t.arcs, t.active[k - 1], t.cost))
  }

  /** A dump prints the arc, unless its cost is zero, and resets it. */
  function PrintArc(st: Account, a: nat, n: nat): (u: Account)
    requires AccountOk(st, n)
    ensures AccountOk(u, n)
  {
    var c := ArcCost(st.arcs, a, n);
    if c == ZeroVec(n) then st
    else st.(arcs := st.arcs[a := ZeroVec(n)], printed := st.printed[a := AddVec(ArcCost(st.printed, a, n), c)])
  }

  /** A signal interrupts the level running; its handler starts with a cost of zero. */
  function Interrupt(st: Account, n: nat): (u: Account)
    requires AccountOk(st, n)
    ensures AccountOk(u, n)
  {
    st.(cost := ZeroVec(n), below := st.below + [st.cost])
  }

  /** The innermost call was entered in the level running. */
  predicate CallInLevel(st: Account) {
    st.active != [] && st.active[|st.active| - 1].level == |st.below|
  }

  /** The handler ends, its calls being left; the interrupted level goes on. */
  function Resume(st: Account, ghost n: nat): (u: Account)
    requires AccountOk(st, n) && st.below != []
    ensures AccountOk(u, n)
  {
    var m := |st.below| - 1;
    st.(cost := st.below[m], below := st.below[..m])
  }

  /** Costs are spent, calls entered and left; a dump settles the active calls, then prints arcs; a
      handler begins and ends. */
  datatype Op = Spending(delta: Vec) | Entering(arc: Arc) | Leaving | Dumping | Printing(a: nat) | Signalled | Handled

  /** One step; a call is left only in its own level, and a handler ends only without calls. */
  function Step(st: Account, op: Op, n: nat): (u: Account)
    requires AccountOk(st, n) && (op.Spending? ==> |op.delta| == n)
    ensures AccountOk(u, n)
  {
    match op
    case Spending(delta) => Spend(st, delta, n)
    case Entering(arc) => Enter(st, arc, n)
    case Leaving => if CallInLevel(st) then Leave(st, n) else st
    case Dumping => DumpTo(st, |st.active|, n)
    case Printing(a) => PrintArc(st, a, n)
    case Signalled => Interrupt(st, n)
    case Handled => if st.below == [] || CallInLevel(st) then st else Resume(st, n)
  }

  ghost predicate OpsOk(ops: seq<Op>, n: nat) {
    forall i :: 0 <= i < |ops| && ops[i].Spending? ==> |ops[i].delta| == n
  }

  function Run(ops: seq<Op>, n: nat): (u: Account)
    requires OpsOk(ops, n)
    ensures AccountOk(u, n)
  {
    if ops == [] then Account(ZeroVec(n), [], [], [], map[], map[])
      else Step(Run(ops[..|ops| - 1], n), ops[|ops| - 1], n)
  }

  // ------------------------------------------------------------- conservation

  /** What calls of arc a have added, all together. */
  function Paid(calls: seq<Call>, a: nat, n: nat): (v: Vec)
    requires forall i :: 0 <= i < |calls| ==> CallOk(calls[i], n)
    ensures |v| == n
  {
    if calls == [] then ZeroVec(n) else
    var rest := Paid(calls[..|calls| - 1], a, n);
    var c := calls[|calls| - 1];
    assert CallOk(c, n);
    if c.arc == Arc(a) then AddVec(rest, c.paid) else rest
  }

  /** A call has added exactly the cost between its entry and its last settlement. */
  ghost predicate PaidUp(c: Call, n: nat)
    requires CallOk(c, n)
  {
    c.arc.Arc? ==> c.paid == SubVec(c.enter, c.entered)
  }

  ghost predicate AllPaidUp(st: Account, n: nat)
    requires AccountOk(st, n)
  {
    && (forall i :: 0 <= i < |st.active| ==> PaidUp(st.active[i], n))
    && (forall i :: 0 <= i < |st.done| ==> PaidUp(st.done[i], n))
  }

  lemma SettledPaidUp(c: Call, cost: Vec, n: nat)
    requires CallOk(c, n) && |cost| == n && PaidUp(c, n)
    ensures PaidUp(SettledCall(c, cost), n)
  {
    if c.arc.Arc? { Telescope(c.entered, c.enter, cost); }
  }

  lemma NewPaidUp(arc: Arc, level: nat, cost: Vec)
    ensures PaidUp(Call(arc, level, cost, cost, ZeroVec(|cost|)), |cost|)
  {
  }

  lemma {:induction false} DumpPaidUp(st: Account, k: nat, n: nat)
    requires AccountOk(st, n) && k <= |st.active| && AllPaidUp(st, n)
    ensures AllPaidUp(DumpTo(st, k, n), n)
  {
    hide PaidUp, SettledCall, SettledArcs;
    if k > 0 {
      DumpPaidUp(st, k - 1, n);
      var t := DumpTo(st, k - 1, n);
      SettledPaidUp(t.active[k - 1], t.cost, n);
    }
  }

  /** In every run each call, active or finished, has added to its arc exactly the cost
      between its entry and its last settlement: for a finished call, its return. */
  lemma {:induction false} RunPaidUp(ops: seq<Op>, n: nat)
    requires OpsOk(ops, n)
    ensures AllPaidUp(Run(ops, n), n)
  {
    hide PaidUp, SettledCall, SettledArcs, DumpTo;
    if ops != [] {
      var m := |ops| - 1;
      RunPaidUp(ops[..m], n);
      var st := Run(ops[..m], n);
      if ops[m].Entering? { NewPaidUp(ops[m].arc, |st.below|, st.cost); }
      if ops[m].Leaving? && CallInLevel(st) { SettledPaidUp(st.active[|st.active| - 1], st.cost, n); }
      if ops[m].Dumping? { DumpPaidUp(st, |st.active|, n); }
    }
  }

  /** So whatever dumps fell into it, a call that returns has added to its arc exactly the cost
      at its return less the cost at its entry. */
  lemma ReturnPaysTheCall(ops: seq<Op>, n: nat)
    requires OpsOk(ops, n) && Run(ops, n).active != []
    ensures var st := Run(ops, n);
            var c, d := st.active[|st.active| - 1], Leave(st, n).done[|st.done|];
            d.arc == c.arc && (c.arc.Arc? ==> d.paid == SubVec(st.cost, c.entered))
  {
    hide Run, AddVec, SubVec;
    RunPaidUp(ops, n);
    var st := Run(ops, n);
    SettledPaidUp(st.active[|st.active| - 1], st.cost, n);
  }

  lemma VecComm(a: Vec, b: Vec)
    requires |a| == |b|
    ensures AddVec(a, b) == AddVec(b, a)
  {
  }

  lemma VecZero(a: Vec)
    ensures AddVec(a, ZeroVec(|a|)) == a && AddVec(ZeroVec(|a|), a) == a
  {
  }

  /** (a + b) + d when d goes to the left or to the right summand. */
  lemma VecMove(a: Vec, b: Vec, d: Vec)
    requires |a| == |b| == |d|
    ensures AddVec(AddVec(a, b), d) == AddVec(AddVec(a, d), b) == AddVec(a, AddVec(b, d))
  {
    AddVecAssociates(a, b, d);
    VecComm(b, d);
    AddVecAssociates(a, d, b);
  }

  ghost predicate CallsOk(calls: seq<Call>, n: nat) {
    forall i :: 0 <= i < |calls| ==> CallOk(calls[i], n)
  }

  /** When one call adds more, its arc's total grows by that much. */
  lemma {:induction false} PaidMore(calls: seq<Call>, i: nat, c: Call, d: Vec, a: nat, n: nat)
    requires CallsOk(calls, n) && i < |calls| && |d| == n && CallOk(c, n)
    requires c.arc == calls[i].arc && c.paid == AddVec(calls[i].paid, d)
    ensures CallsOk(calls[i := c], n)
    ensures Paid(calls[i := c], a, n) == if c.arc == Arc(a) then AddVec(Paid(calls, a, n), d) else Paid(calls, a, n)
  {
    hide AddVec;
    var m := |calls| - 1;
    var u := calls[i := c];
    if i == m {
      assert u[..m] == calls[..m];
      if c.arc == Arc(a) { AddVecAssociates(Paid(calls[..m], a, n), calls[m].paid, d); }
    } else {
      assert u[..m] == calls[..m][i := c];
      PaidMore(calls[..m], i, c, d, a, n);
      if c.arc == Arc(a) && calls[m].arc == Arc(a) {
        VecMove(Paid(calls[..m], a, n), calls[m].paid, d);
      }
    }
  }

  lemma PaidNext(calls: seq<Call>, c: Call, a: nat, n: nat)
    requires CallsOk(calls, n) && CallOk(c, n)
    ensures CallsOk(calls + [c], n)
    ensures Paid(calls + [c], a, n) == if c.arc == Arc(a) then AddVec(Paid(calls, a, n), c.paid) else Paid(calls, a, n)
  {
    assert (calls + [c])[..|calls|] == calls;
  }

  /** What has been printed of an arc and what is still on it. */
  function Received(st: Account, a: nat, n: nat): (v: Vec)
    requires AccountOk(st, n)
    ensures |v| == n
  {
    AddVec(ArcCost(st.printed, a, n), ArcCost(st.arcs, a, n))
  }

  /** That is what all calls of the arc have added to it. */
  ghost predicate Conserved(st: Account, a: nat, n: nat)
    requires AccountOk(st, n)
  {
    Received(st, a, n) == AddVec(Paid(st.done, a, n), Paid(st.active, a, n))
  }

  lemma {:induction false} DumpConserved(st: Account, k: nat, a: nat, n: nat)
    requires AccountOk(st, n) && k <= |st.active| && Conserved(st, a, n)
    ensures Conserved(DumpTo(st, k, n), a, n)
  {
    hide AddVec, SubVec, Paid;
    if k > 0 {
      DumpConserved(st, k - 1, a, n);
      var t := DumpTo(st, k - 1, n);
      var c := t.active[k - 1];
      if c.arc.Arc? {
        var d := SubVec(t.cost, c.enter);
        PaidMore(t.active, k - 1, SettledCall(c, t.cost), d, a, n);
        if c.arc == Arc(a) {
          AddVecAssociates(ArcCost(t.printed, a, n), ArcCost(t.arcs, a, n), d);
          AddVecAssociates(Paid(t.done, a, n), Paid(t.active, a, n), d);
        }
      } else {
        assert t.active[k - 1 := c] == t.active;
      }
    }
  }

  lemma EnterConserved(st: Account, arc: Arc, a: nat, n: nat)
    requires AccountOk(st, n) && Conserved(st, a, n)
    ensures Conserved(Enter(st, arc, n), a, n)
  {
    hide AddVec, Paid;
    PaidNext(st.active, Call(arc, |st.below|, st.cost, st.cost, ZeroVec(n)), a, n);
    VecZero(Paid(st.active, a, n));
  }

  lemma LeaveConserved(st: Account, a: nat, n: nat)
    requires AccountOk(st, n) && st.active != [] && Conserved(st, a, n)
    ensures Conserved(Leave(st, n), a, n)
  {
    hide AddVec, SubVec, Paid;
    var m := |st.active| - 1;
    var c := st.active[m];
    var before := st.active[..m];
    assert before + [c] == st.active;
    PaidNext(before, c, a, n);
    PaidNext(st.done, SettledCall(c, st.cost), a, n);
    var done, rest := Paid(st.done, a, n), Paid(before, a, n);
    if c.arc == Arc(a) {
      var d := SubVec(st.cost, c.enter);
      AddVecAssociates(ArcCost(st.printed, a, n), ArcCost(st.arcs, a, n), d);
      VecMove(done, rest, c.paid);
      AddVecAssociates(done, c.paid, d);
      VecMove(AddVec(done, c.paid), rest, d);
    }
  }

  lemma StartConserved(a: nat, n: nat)
    ensures Conserved(Account(ZeroVec(n), [], [], [], map[], map[]), a, n)
  {
    VecZero(ZeroVec(n));
  }

  lemma SpendConserved(st: Account, delta: Vec, a: nat, n: nat)
    requires AccountOk(st, n) && |delta| == n && Conserved(st, a, n)
    ensures Conserved(Spend(st, delta, n), a, n)
  {
  }

  lemma InterruptConserved(st: Account, a: nat, n: nat)
    requires AccountOk(st, n) && Conserved(st, a, n)
    ensures Conserved(Interrupt(st, n), a, n)
  {
  }

  lemma ResumeConserved(st: Account, a: nat, n: nat)
    requires AccountOk(st, n) && st.below != [] && Conserved(st, a, n)
    ensures Conserved(Resume(st, n), a, n)
  {
  }

  lemma PrintConserved(st: Account, b: nat, a: nat, n: nat)
    requires AccountOk(st, n) && Conserved(st, a, n)
    ensures Conserved(PrintArc(st, b, n), a, n)
  {
    hide AddVec, Paid, ZeroVec;
    if b == a { VecZero(AddVec(ArcCost(st.printed, a, n), ArcCost(st.arcs, a, n))); }
  }

  /** In every run, whatever calls share an arc, however dumps fall and whichever arcs they print
      and reset, what has been printed of an arc and what is still on it are together the sum of
      what its calls added: nothing is lost and nothing counted twice. */
  lemma {:induction false} RunConserved(ops: seq<Op>, a: nat, n: nat)
    requires OpsOk(ops, n)
    ensures Conserved(Run(ops, n), a, n)
  {
    hide Conserved, Enter, Leave, DumpTo, PrintArc;
    if ops == [] {
      StartConserved(a, n);
    } else {
      var m := |ops| - 1;
      RunConserved(ops[..m], a, n);
      var st := Run(ops[..m], n);
      match ops[m]
      case Spending(delta) => SpendConserved(st, delta, a, n);
      case Entering(arc) => EnterConserved(st, arc, a, n);
      case Leaving => if CallInLevel(st) { LeaveConserved(st, a, n); }
      case Dumping => DumpConserved(st, |st.active|, a, n);
      case Printing(b) => PrintConserved(st, b, a, n);
      case Signalled => InterruptConserved(st, a, n);
      case Handled => if st.below != [] { ResumeConserved(st, a, n); }
    }
  }

  /** Printing an arc prints all that is on it and leaves nothing, and touches no other arc. */
  lemma PrintingIs(st: Account, a: nat, b: nat, n: nat)
    requires AccountOk(st, n)
    ensures var u := PrintArc(st, a, n);
            && AccountOk(u, n) && u.cost == st.cost && u.below == st.below && u.active == st.active && u.done == st.done
            && ArcCost(u.arcs, a, n) == ZeroVec(n) && ArcCost(u.printed, a, n) == Received(st, a, n)
            && (b != a ==> ArcCost(u.arcs, b, n) == ArcCost(st.arcs, b, n)
                           && ArcCost(u.printed, b, n) == ArcCost(st.printed, b, n))
  {
    VecZero(ArcCost(st.printed, a, n));
  }

  /** So once an arc has been printed, after any run, all that its calls have added has been printed,
      and nothing is left on it. */
  lemma PrintsAll(ops: seq<Op>, a: nat, n: nat)
    requires OpsOk(ops, n)
    ensures OpsOk(ops + [Printing(a)], n)
    ensures var u := Run(ops + [Printing(a)], n);
            && ArcCost(u.printed, a, n) == AddVec(Paid(u.done, a, n), Paid(u.active, a, n))
            && forall c :: 0 <= c < n ==> ArcCost(u.arcs, a, n)[c] == 0
  {
    hide AccountOk, PrintArc, Paid;
    RunConserved(ops, a, n);
    PrintingIs(Run(ops, n), a, a, n);
    assert (ops + [Printing(a)])[..|ops|] == ops;
  }

  // ------------------------------------------------------------ from entry to return

  /** Call i is not left between the end of ops and the end of more. */
  ghost predicate NotLeft(ops: seq<Op>, more: seq<Op>, i: nat, n: nat) {
    forall u: seq<Op> :: ops <= u <= more && OpsOk(u, n) ==> i < |Run(u, n).active|
  }

  lemma NotLeftPart(ops: seq<Op>, part: seq<Op>, more: seq<Op>, i: nat, n: nat)
    requires NotLeft(ops, more, i, n) && part <= more
    ensures NotLeft(ops, part, i, n)
  {
    hide Run;
    forall u: seq<Op> | ops <= u <= part && OpsOk(u, n)
      ensures i < |Run(u, n).active|
    {
      assert u <= more;
    }
  }

  lemma {:induction false} CallStays(ops: seq<Op>, more: seq<Op>, i: nat, n: nat)
    requires ops <= more && OpsOk(more, n) && NotLeft(ops, more, i, n)
    ensures OpsOk(ops, n) && i < |Run(ops, n).active| && i < |Run(more, n).active|
    ensures var (c, d) := (Run(ops, n).active[i], Run(more, n).active[i]);
            d.arc == c.arc && d.level == c.level && d.entered == c.entered
    decreases |more|
  {
    hide Run, DumpTo, PrintArc, AddVec, SubVec;
    assert OpsOk(ops, n);
    if |ops| == |more| {
      assert ops == more;
    } else {
      var m := |more| - 1;
      var before := more[..m];
      assert more == before + [more[m]] && ops <= before && OpsOk(before, n);
      NotLeftPart(ops, before, more, i, n);
      CallStays(ops, before, i, n);
      RunNext(before, more[m], n);
      StepKeeps(Run(before, n), more[m], i, n);
    }
  }

  lemma RunNext(ops: seq<Op>, op: Op, n: nat)
    requires OpsOk(ops + [op], n)
    ensures OpsOk(ops, n) && (op.Spending? ==> |op.delta| == n) && Run(ops + [op], n) == Step(Run(ops, n), op, n)
  {
    hide Step;
    assert (ops + [op])[..|ops|] == ops && (ops + [op])[|ops|] == op;
    assert forall k :: 0 <= k < |ops| ==> (ops + [op])[k] == ops[k];
  }

  lemma StepKeeps(st: Account, op: Op, i: nat, n: nat)
    requires AccountOk(st, n) && (op.Spending? ==> |op.delta| == n)
    requires i < |st.active| && i < |Step(st, op, n).active|
    ensures var (c, d) := (st.active[i], Step(st, op, n).active[i]);
            d.arc == c.arc && d.level == c.level && d.entered == c.entered
  {
    hide AddVec, SubVec, SettledCall, SettledArcs;
    if op.Dumping? { DumpKeepsCall(st, |st.active|, i, n); }
  }

  lemma {:induction false} DumpKeepsCall(st: Account, k: nat, i: nat, n: nat)
    requires AccountOk(st, n) && k <= |st.active| && i < |st.active|
    ensures var (c, d) := (st.active[i], DumpTo(st, k, n).active[i]);
            d.arc == c.arc && d.level == c.level && d.entered == c.entered
  {
    hide AddVec, SubVec, SettledArcs;
    if k > 0 { DumpKeepsCall(st, k - 1, i, n); }
  }

  /** Whatever happens between the entry of a call and its return, calls, dumps, handlers, it has added
      to its arc exactly what its level has cost meanwhile. */
  lemma CallPays(pre: seq<Op>, arc: Arc, mid: seq<Op>, n: nat)
    requires OpsOk(pre + [Entering(arc)] + mid, n) && OpsOk(pre, n)
    requires var (before, after) := (Run(pre, n), Run(pre + [Entering(arc)] + mid, n));
             && NotLeft(pre + [Entering(arc)], pre + [Entering(arc)] + mid, |before.active|, n)
             && |after.active| == |before.active| + 1 && CallInLevel(after)
    ensures OpsOk(pre + [Entering(arc)] + mid + [Leaving], n)
    ensures var (before, after) := (Run(pre, n), Run(pre + [Entering(arc)] + mid, n));
            var left := Run(pre + [Entering(arc)] + mid + [Leaving], n);
            && |after.below| == |before.below|
            && |left.active| == |before.active| && |left.done| == |after.done| + 1
            && var d := left.done[|after.done|];
               && d.arc == arc
               && (arc.Arc? ==> d.paid == SubVec(after.cost, before.cost))
  {
    hide Run, AddVec, SubVec, ZeroVec, SettledArcs, NotLeft, AccountOk;
    var ops := pre + [Entering(arc)];
    var i := |Run(pre, n).active|;
    PrefixOps(ops, mid, n);
    RunNext(pre, Entering(arc), n);
    CallStays(ops, ops + mid, i, n);
    ReturnPaysTheCall(ops + mid, n);
    assert forall k :: 0 <= k < |ops + mid| ==> (ops + mid + [Leaving])[k] == (ops + mid)[k];
    RunNext(ops + mid, Leaving, n);
  }

  lemma PrefixOps(ops: seq<Op>, mid: seq<Op>, n: nat)
    requires OpsOk(ops + mid, n)
    ensures OpsOk(ops, n)
  {
    assert forall k :: 0 <= k < |ops| ==> (ops + mid)[k] == ops[k];
  }

  // ------------------------------------------------------- dumps in signal handlers

  /** Calls from the outermost were entered in levels that do not decrease, up to the one running. */
  ghost predicate LevelsOk(st: Account) {
    && (forall i :: 0 <= i < |st.active| ==> st.active[i].level <= |st.below|)
    && (forall i, j :: 0 <= i < j < |st.active| ==> st.active[i].level <= st.active[j].level)
  }

  lemma {:induction false} DumpKeepsLevels(st: Account, k: nat, n: nat)
    requires AccountOk(st, n) && k <= |st.active|
    ensures forall i :: 0 <= i < |st.active| ==>
              var (c, d) := (st.active[i], DumpTo(st, k, n).active[i]);
              && d.arc == c.arc && d.level == c.level && d.entered == c.entered
              && (i < k && c.arc.Arc? ==> d.enter == st.cost)
  {
    hide SettledArcs, AddVec, SubVec;
    if k > 0 { DumpKeepsLevels(st, k - 1, n); }
  }

  lemma {:induction false} RunLevels(ops: seq<Op>, n: nat)
    requires OpsOk(ops, n)
    ensures LevelsOk(Run(ops, n))
  {
    hide SettledCall, SettledArcs, DumpTo, PrintArc, AddVec, SubVec;
    if ops != [] {
      var m := |ops| - 1;
      RunLevels(ops[..m], n);
      var st := Run(ops[..m], n);
      if ops[m].Dumping? { DumpKeepsLevels(st, |st.active|, n); }
      if ops[m].Printing? { PrintKeepsCalls(st, ops[m].a, n); }
    }
  }

  lemma PrintKeepsCalls(st: Account, a: nat, n: nat)
    requires AccountOk(st, n)
    ensures PrintArc(st, a, n).active == st.active && PrintArc(st, a, n).below == st.below
  {
  }

  /** The cost of the level a call was entered in. */
  function OwnCost(st: Account, level: nat): Vec
    requires level <= |st.below|
  {
    if level == |st.below| then st.cost else st.below[level]
  }

  lemma SubInjective(a: Vec, b: Vec, c: Vec)
    requires |a| == |b| == |c|
    ensures SubVec(a, c) == SubVec(b, c) <==> a == b
  {
    if SubVec(a, c) == SubVec(b, c) {
      forall i | 0 <= i < |a|
        ensures a[i] == b[i]
      {
        assert SubULong(a[i], c[i]) == SubULong(b[i], c[i]);
        WordInjective(a[i], b[i], c[i]);
      }
    }
  }

  lemma WordInjective(a: ULong, b: ULong, c: ULong)
    requires SubULong(a, c) == SubULong(b, c)
    ensures a == b
  {
  }

  /** What a dump has settled of a call is its inclusive cost, that of its own level now less that at
      its entry, exactly if the level running has the cost of the call's own level: so it is for the
      calls of the level running, and not in general for those that a handler interrupted. */
  lemma DumpIsInclusive(ops: seq<Op>, n: nat, i: nat)
    requires OpsOk(ops, n) && i < |Run(ops, n).active|
    ensures var st := Run(ops, n);
            var (c, d) := (st.active[i], DumpTo(st, |st.active|, n).active[i]);
            && d.arc == c.arc && c.level <= |st.below|
            && (c.arc.Arc? ==> && d.paid == SubVec(st.cost, c.entered)
                               && (d.paid == SubVec(OwnCost(st, c.level), c.entered)
                                 <==> st.cost == OwnCost(st, c.level)))
            && (c.level == |st.below| ==> st.cost == OwnCost(st, c.level))
  {
    hide Run, AddVec, SubVec;
    RunPaidUp(ops, n);
    RunLevels(ops, n);
    var st := Run(ops, n);
    DumpPaidUp(st, |st.active|, n);
    DumpKeepsLevels(st, |st.active|, n);
    SubInjective(st.cost, OwnCost(st, st.active[i].level), st.active[i].entered);
  }

  lemma EnteredAtThree()
    ensures var ops := [Spending([3]), Entering(Arc(0))];
            OpsOk(ops, 1) && Run(ops, 1) == Account([3], [], [Call(Arc(0), 0, [3], [3], [0])], [], map[], map[])
  {
    hide DumpTo, PrintArc, Leave, Interrupt, Resume;
    var ops := [Spending([3]), Entering(Arc(0))];
    assert ops[..1] == [Spending([3])] && ops[..1][..0] == [] && AddVec([0], [3]) == [3] && ZeroVec(1) == [0];
    assert Run([], 1) == Account([0], [], [], [], map[], map[]);
    assert Run(ops[..1], 1) == Spend(Run([], 1), [3], 1);
    assert Run(ops, 1) == Enter(Run(ops[..1], 1), Arc(0), 1);
  }

  /** A dump in a handler, of a call entered at a cost of 3 and interrupted at once: 2^64 - 3 instead
      of nothing. */
  lemma DumpInHandler() returns (ops: seq<Op>)
    ensures OpsOk(ops, 1) && |Run(ops, 1).active| == 1
    ensures var st := Run(ops, 1);
            && st.active[0].arc == Arc(0) && st.active[0].level == 0 && st.below == [st.active[0].entered]
            && DumpTo(st, 1, 1).active[0].paid == [TWO64 - 3]
            && SubVec(OwnCost(st, 0), st.active[0].entered) == [0]
  {
    hide DumpTo, PrintArc, Leave, Enter, Resume;
    EnteredAtThree();
    var two := [Spending([3]), Entering(Arc(0))];
    ops := two + [Signalled];
    assert ops[..2] == two;
    var st := Run(ops, 1);
    assert st == Interrupt(Run(two, 1), 1) && st.below == [[3]] && st.cost == [0];
    DumpIsInclusive(ops, 1, 0);
    assert SubVec([0], [3]) == [TWO64 - 3] && SubVec([3], [3]) == [0];
  }
}
