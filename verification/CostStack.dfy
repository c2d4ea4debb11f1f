/** The cost side of the shadow call stack in place: entries remember the cost at which they
    last settled, arcs collect inclusive costs, and a dump settles every active entry. */
module CostStack {
  import opened Profile
  import opened Costs

  datatype Maybe<T> = None | Some(value: T)

  /** The vectors are pairwise different and have length n. */
  ghost predicate Apart(v: seq<array?<ULong>>, n: nat) {
    && (forall i :: 0 <= i < |v| && v[i] != null ==> v[i].Length == n)
    && (forall i, j :: 0 <= i < j < |v| && v[i] != null ==> v[i] != v[j])
  }

  /** Entries and arcs have vectors of their own, and the account has the same calls and arcs. */
  ghost predicate ShapeOf(n: nat, cost: array<ULong>, sp: nat, jcc: seq<Arc>, enter: seq<array?<ULong>>,
                          arcs: seq<array?<ULong>>, st: Account)
  {
    && cost.Length == n && |jcc| == |enter| && sp <= |jcc| && AccountOk(st, n) && Apart(enter, n) && Apart(arcs, n)
    && (forall i :: 0 <= i < |enter| ==> enter[i] != cost)
    && (forall i :: 0 <= i < |arcs| ==> arcs[i] != cost)
    && (forall i, a :: 0 <= i < |enter| && 0 <= a < |arcs| && enter[i] != null ==> enter[i] != arcs[a])
    && |st.active| == sp
    && (forall i :: 0 <= i < sp ==> jcc[i] == st.active[i].arc)
    && (forall i :: 0 <= i < sp && jcc[i].Arc? ==> jcc[i].id < |arcs| && enter[i] != null)
    && (forall a :: a in st.arcs ==> a < |arcs|)
    && (forall a :: 0 <= a < |arcs| ==> (arcs[a] != null <==> a in st.arcs))
  }

  /** The vectors of entry i and of its arc are apart from all others. */
  lemma EntryApart(n: nat, cost: array<ULong>, sp: nat, jcc: seq<Arc>, enter: seq<array?<ULong>>,
                   arcs: seq<array?<ULong>>, st: Account, i: nat)
    requires ShapeOf(n, cost, sp, jcc, enter, arcs, st) && i < sp && jcc[i].Arc?
    ensures AccountOk(st, n) && cost.Length == n && |st.active| == sp <= |enter| && jcc[i] == st.active[i].arc
            && jcc[i].id < |arcs|
    ensures enter[i] != null && enter[i].Length == n && enter[i] != cost
    ensures forall j :: 0 <= j < |enter| && j != i ==> enter[j] != enter[i]
    ensures forall j :: 0 <= j < sp && jcc[j].Arc? ==> enter[j] != null
    ensures forall b :: 0 <= b < |arcs| ==> arcs[b] != enter[i]
    ensures var d := arcs[jcc[i].id];
            && (d != null ==> d.Length == n && d != cost) && (d != null <==> jcc[i].id in st.arcs)
            && (forall j :: 0 <= j < |enter| && d != null ==> enter[j] != d)
            && (forall b :: 0 <= b < |arcs| && b != jcc[i].id && d != null ==> arcs[b] != d)
    ensures forall b :: 0 <= b < |arcs| ==> (arcs[b] != null <==> b in st.arcs)
  {
    hide AccountOk;
  }

  /** The shape after the arc of entry i got the vector d. */
  lemma SettledShape(n: nat, cost: array<ULong>, sp: nat, jcc: seq<Arc>, enter: seq<array?<ULong>>,
                     arcs: seq<array?<ULong>>, st: Account, i: nat, d: array<ULong>, u: Account)
    requires ShapeOf(n, cost, sp, jcc, enter, arcs, st) && i < sp && jcc[i].Arc? && AccountOk(u, n)
    requires |u.active| == sp && u.active[i].arc == st.active[i].arc
    requires forall j :: 0 <= j < sp && j != i ==> u.active[j] == st.active[j]
    requires forall b :: b in u.arcs <==> b in st.arcs || b == jcc[i].id
    requires d.Length == n && d != cost
    requires forall j :: 0 <= j < |enter| ==> enter[j] != d
    requires forall b :: 0 <= b < |arcs| && b != jcc[i].id ==> arcs[b] != d
    ensures ShapeOf(n, cost, sp, jcc, enter, arcs[jcc[i].id := d], u)
  {
    hide AccountOk;
  }

  class Stack {
    const n: nat
    const cost: array<ULong>
    var sp: nat
    var jcc: seq<Arc>
    var enter_cost: seq<array?<ULong>>
    var arcs: seq<array?<ULong>>
    ghost var account: Account

    ghost function Repr(): set<object>
      reads this
    {
      {this, cost} + (set i | 0 <= i < |enter_cost| && enter_cost[i] != null :: enter_cost[i])
      + (set i | 0 <= i < |arcs| && arcs[i] != null :: arcs[i])
    }

    ghost predicate Shaped()
      reads this
    {
      sp <= |jcc| && ShapeOf(n, cost, sp, jcc, enter_cost, arcs, account)
    }

    /** The vectors hold what the account says. */
    ghost predicate Valid()
      reads this, Repr()
    {
      && Shaped() && account.cost == cost[..]
      && (forall i :: 0 <= i < sp && jcc[i].Arc? ==> enter_cost[i][..] == account.active[i].enter)
      && (forall a :: 0 <= a < |arcs| && arcs[a] != null ==> arcs[a][..] == account.arcs[a])
    }

    constructor (n: nat, size: nat, nArcs: nat)
      ensures Valid() && fresh(Repr()) && this.n == n && sp == 0 && |jcc| == size && |arcs| == nArcs
      ensures account == Account(ZeroVec(n), [], [], [], map[], map[])
    {
      this.n := n;
      cost := new ULong[n](_ => 0);
      sp := 0;
      jcc := seq(size, _ => NoArc);
      enter_cost := seq(size, _ => null);
      arcs := seq(nArcs, _ => null);
      account := Account(ZeroVec(n), [], [], [], map[], map[]);
    }

    /** The simulation adds d to one counter. */
    method Increment(c: nat, d: ULong)
      requires Valid() && c < n
      modifies this`account, cost
      ensures Valid() && account == Spend(old(account), ZeroVec(n)[c := d], n)
      ensures jcc == old(jcc) && enter_cost == old(enter_cost) && arcs == old(arcs) && sp == old(sp)
    {
      ghost var u := Spend(account, ZeroVec(n)[c := d], n);
      cost[c] := AddULong(cost[c], d);
      assert cost[..] == u.cost;
      account := u;
    }

    /** Settle entry i: what was spent since it last settled goes to its arc. */
    method Settle(i: nat, ghost u: Account)
      requires Valid() && i < sp && jcc[i].Arc? && AccountOk(u, n)
      requires u == account.(active := account.active[i := SettledCall(account.active[i], account.cost)],
                             arcs := SettledArcs(account.arcs, account.active[i], account.cost))
      modifies this`account, this`arcs, enter_cost[i], if arcs[jcc[i].id] == null then {} else {arcs[jcc[i].id]}
      ensures Valid() && account == u && jcc == old(jcc) && enter_cost == old(enter_cost) && sp == old(sp)
              && |arcs| == old(|arcs|)
      ensures forall o :: o in Repr() ==> o in old(Repr()) || fresh(o)
    {
      hide AddVec, SubVec, ZeroVec, SettledCall, SettledArcs, AccountOk, CallOk, ArcCost, ShapeOf;
      var a := jcc[i].id;
      EntryApart(n, cost, sp, jcc, enter_cost, arcs, account, i);
      SettledEntry(account, u, i, n);
      var dst, isNonzero := AddDiffCostLz(arcs[a], enter_cost[i], cost);
      SettledShape(n, cost, sp, jcc, enter_cost, arcs, account, i, dst, u);
      arcs := arcs[a := dst];
      account := u;
    }

    /** Push a call on its arc; the current cost is remembered, in the entry's own vector. */
    method Push(arc: Arc)
      requires Valid() && sp < |jcc| && (arc.Arc? ==> arc.id < |arcs|)
      modifies this, if enter_cost[sp] == null then {} else {enter_cost[sp]}
      ensures Valid() && account == Enter(old(account), arc, n) && arcs == old(arcs) && sp == old(sp) + 1
              && |jcc| == old(|jcc|)
      ensures forall o :: o in Repr() ==> o in old(Repr()) || fresh(o)
    {
      hide AddVec, SubVec, ZeroVec;
      ghost var u := Enter(account, arc, n);
      if arc.Arc? {
        var dst := CopyCostLz(enter_cost[sp], cost);
        enter_cost := enter_cost[sp := dst];
      }
      jcc := jcc[sp := arc];
      sp := sp + 1;
      account := u;
    }

    /** Pop the innermost call; it settles for the last time. */
    method Pop()
      requires Valid() && sp > 0
      modifies this, Repr()
      ensures Valid() && account == Leave(old(account), n) && sp == old(sp) - 1 && |jcc| == old(|jcc|)
              && |arcs| == old(|arcs|)
      ensures forall o :: o in Repr() ==> o in old(Repr()) || fresh(o)
    {
      hide AddVec, SubVec, ZeroVec;
      ghost var st := account;
      ghost var m := sp - 1;
      if jcc[sp - 1].Arc? {
        Settle(sp - 1,
          st.(active := st.active[m := SettledCall(st.active[m], st.cost)],
            arcs := SettledArcs(st.arcs, st.active[m], st.cost)));
      }
      sp := sp - 1;
      assert st.active[m := SettledCall(st.active[m], st.cost)][..m] == st.active[..m];
      account := Leave(st, n);
    }

    lemma AccountShaped()
      requires Valid()
      ensures AccountOk(account, n) && |account.active| == sp && account == DumpTo(account, 0, n)
    {
    }

    /** At a dump every active call settles, the outermost first. */
    method AddCount()
      requires Valid()
      modifies this, Repr()
      ensures Valid() && account == DumpTo(old(account), old(sp), n) && sp == old(sp) && |jcc| == old(|jcc|)
              && |arcs| == old(|arcs|)
      ensures forall o :: o in Repr() ==> o in old(Repr()) || fresh(o)
    {
      AccountShaped();
      hide AddVec, SubVec, ZeroVec, Stack.Shaped, Stack.Valid, Stack.Repr, DumpTo;
      ghost var st := account;
      for i := 0 to sp
        invariant sp == old(sp) && Valid() && account == DumpTo(st, i, n) && |jcc| == old(|jcc|)
                  && |arcs| == old(|arcs|)
        invariant forall o :: o in Repr() ==> o in old(Repr()) || fresh(o)
      {
        SettleEntry(i, st);
      }
    }

    /** A dump prints an arc whose cost is not zero, and resets it. */
    method PrintArc(a: nat) returns (line: Maybe<Vec>)
      requires Valid() && a < |arcs|
      modifies this`account, arcs[a]
      ensures Valid() && account == Costs.PrintArc(old(account), a, n)
      ensures jcc == old(jcc) && enter_cost == old(enter_cost) && arcs == old(arcs) && sp == old(sp)
      ensures AccountOk(old(account), n)
      ensures var c := ArcCost(old(account).arcs, a, n); line == if c == ZeroVec(n) then None else Some(c)
    {
      hide AddVec, SubVec, ZeroVec;
      ghost var u := Costs.PrintArc(account, a, n);
      var zero := IsZeroCost(arcs[a]);
      if zero {
        return None;
      }
      line := Some(arcs[a][..]);
      ZeroCost(arcs[a]);
      account := u;
    }

    /** Entry i at a dump: an entry without an arc is passed over. */
    method SettleEntry(i: nat, ghost st: Account)
      requires Valid() && i < sp && AccountOk(st, n) && |st.active| == sp && account == DumpTo(st, i, n)
      modifies this, Repr()
      ensures Valid() && account == DumpTo(st, i + 1, n) && sp == old(sp) && |jcc| == old(|jcc|)
              && |arcs| == old(|arcs|)
      ensures forall o :: o in Repr() ==> o in old(Repr()) || fresh(o)
    {
      hide AddVec, SubVec, ZeroVec;
      if jcc[i].NoArc? {
        SkippedSettles(st, i, n);
        return;
      }
      Settle(i, DumpTo(st, i + 1, n));
    }
  }

  /** What settling entry i changes. */
  lemma SettledEntry(st: Account, u: Account, i: nat, n: nat)
    requires AccountOk(st, n) && AccountOk(u, n) && i < |st.active| && st.active[i].arc.Arc?
    requires u == st.(active := st.active[i := SettledCall(st.active[i], st.cost)],
                      arcs := SettledArcs(st.arcs, st.active[i], st.cost))
    ensures |st.cost| == n && |st.active[i].enter| == n && (forall a :: a in st.arcs ==> |st.arcs[a]| == n)
    ensures u.cost == st.cost && |u.active| == |st.active| && u.active[i].arc == st.active[i].arc
            && u.active[i].enter == st.cost
              && (forall j :: 0 <= j < |u.active| && j != i ==> u.active[j] == st.active[j])
    ensures var a := st.active[i].arc.id;
            u.arcs == st.arcs[a := AddVec(if a in st.arcs then st.arcs[a]
              else ZeroVec(n), SubVec(st.cost, st.active[i].enter))]
  {
    hide AddVec, SubVec, ZeroVec;
  }

  lemma SkippedSettles(st: Account, i: nat, n: nat)
    requires AccountOk(st, n) && i < |st.active| && DumpTo(st, i, n).active[i].arc.NoArc?
    ensures DumpTo(st, i + 1, n) == DumpTo(st, i, n)
  {
    var t := DumpTo(st, i, n);
    assert t.active[i := t.active[i]] == t.active;
  }
}
