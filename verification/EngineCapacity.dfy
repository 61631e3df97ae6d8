/**
 An engine with room for everything. When the local backends together can hold as many
 pages as offsets are ever stored to, no store fails and none evicts: the engine is the
 plain map from offsets to pages.
 */
module EngineCapacity {
  import opened Pages
  import opened Backends
  import opened Policy
  import opened EngineSpec
  import opened LocalRuns

  function Totals(backs: map<nat, BState>): map<nat, nat> {
    map i | i in backs :: backs[i].total
  }

  ghost function Sum(ts: map<nat, nat>): nat
    decreases |ts|
  {
    if ts == map[] then 0
    else
      var i :| i in ts;
      ts[i] + Sum(ts - {i})
  }

  /** How many pages the backends may hold together. */
  ghost function Capacity(e: EState): nat {
    Sum(Totals(e.backs))
  }

  lemma {:induction false} SumRemove(ts: map<nat, nat>, i: nat)
    requires i in ts
    ensures Sum(ts) == ts[i] + Sum(ts - {i})
    decreases |ts|
  {
    var g :| g in ts && Sum(ts) == ts[g] + Sum(ts - {g});
    if g != i {
      SumRemove(ts - {g}, i);
      SumRemove(ts - {i}, g);
      assert ts - {g} - {i} == ts - {i} - {g};
    }
  }

  /** The offsets whose page is in one of some backends. */
  function TrackedInAny(metas: map<nat, Meta>, ids: set<nat>): set<nat> {
    set o | o in metas && metas[o].backend in ids
  }

  lemma SplitOff(metas: map<nat, Meta>, ids: set<nat>, i: nat)
    requires i in ids
    ensures |TrackedInAny(metas, ids)| == |TrackedIn(metas, i)| + |TrackedInAny(metas, ids - {i})|
  {
    var all, one, rest := TrackedInAny(metas, ids), TrackedIn(metas, i), TrackedInAny(metas, ids - {i});
    assert all == one + rest && one !! rest;
  }

  /** Backends that are all full hold as many pages as they may. */
  lemma {:induction false} FullHolds(metas: map<nat, Meta>, ts: map<nat, nat>)
    requires forall i | i in ts :: |TrackedIn(metas, i)| >= ts[i]
    ensures |TrackedInAny(metas, ts.Keys)| >= Sum(ts)
    decreases |ts|
  {
    if ts != map[] {
      var i :| i in ts;
      SumRemove(ts, i);
      SplitOff(metas, ts.Keys, i);
      assert (ts - {i}).Keys == ts.Keys - {i};
      FullHolds(metas, ts - {i});
    }
  }

  lemma AllTracked(e: EState)
    requires Holds(e.metas, e.backs)
    ensures TrackedInAny(e.metas, e.backs.Keys) == e.metas.Keys
  {
  }

  /** Fewer pages than capacity leave a backend with room. */
  lemma RoomBelowCapacity(e: EState)
    requires Conserved(e) && |e.metas| < Capacity(e)
    ensures SomeRoom(e.backs)
  {
    AllTracked(e);
    assert Totals(e.backs).Keys == e.backs.Keys && |e.metas.Keys| == |e.metas|;
    if !SomeRoom(e.backs) {
      forall i | i in e.backs ensures |TrackedIn(e.metas, i)| >= e.backs[i].total {
        LocalUsed(e, i);
        assert !Open(e.backs, i);
      }
      FullHolds(e.metas, Totals(e.backs));
    }
  }

  /** Every offset tracked is among `offsets`, and there is capacity for all of them. */
  ghost predicate Ample(e: EState, offsets: set<nat>) {
    Conserved(e) && e.metas.Keys <= offsets && |offsets| <= Capacity(e)
  }

  lemma FewerTracked(e: EState, offsets: set<nat>, o: nat)
    requires Ample(e, offsets) && o in offsets && o !in e.metas
    ensures |e.metas| < Capacity(e)
  {
    assert offsets == e.metas.Keys + (offsets - e.metas.Keys);
    assert |e.metas.Keys| == |e.metas|;
    assert o in offsets - e.metas.Keys;
  }

  lemma DropTotals(e: EState, o: nat)
    requires Holds(e.metas, e.backs)
    ensures Totals(Drop(e, o).backs) == Totals(e.backs)
  {
  }

  lemma PutTotals(e: EState, i: nat, o: nat, data: Page, now: nat)
    requires i in e.backs
    ensures Totals(Put(e, i, o, data, now).backs) == Totals(e.backs)
  {
  }

  /** With capacity a store succeeds and costs nothing but the old copy. */
  lemma AmpleStore(e: EState, offsets: set<nat>, o: nat, data: Page, now: nat, e': EState, r: Result<Placed>, victim: Option<nat>)
    requires Ample(e, offsets) && o in offsets && LocalStore(e, o, data, now, e', r, victim)
    ensures r.Ok? && victim.None? && e'.metas.Keys == e.metas.Keys + {o} && Totals(e'.backs) == Totals(e.backs)
  {
    hide Conserved, LocalStore, Cleared, SomeVictim, IsPlacement, SomeRoom, Holds, Injective, BacksValid, Totals, Drop, Put;
    ConservedTracked(e);
    if o !in e.metas {
      FewerTracked(e, offsets, o);
      RoomBelowCapacity(e);
    }
    var e2 := StoreTakenApart(e, o, data, now, e', r, victim);
    DropFacts(e, o);
    DropTotals(e, o);
    PlacementOpen(e2.backs, r.value.backend);
    PutTotals(e2, r.value.backend, o, data, now);
    PutKeys(e2, r.value.backend, o, data, now);
  }

  lemma PutKeys(e: EState, i: nat, o: nat, data: Page, now: nat)
    requires i in e.backs
    ensures Put(e, i, o, data, now).metas.Keys == e.metas.Keys + {o}
  {
  }

  /** What a call makes of a plain map. */
  function PlainStep(m: map<nat, Page>, op: Op): map<nat, Page> {
    match op
    case StoreOp(o, data, _) => m[o := data]
    case InvalidateOp(o) => m - {o}
    case _ => m
  }

  function Plain(ops: seq<Op>): map<nat, Page> {
    if ops == [] then map[] else PlainStep(Plain(ops[..|ops| - 1]), ops[|ops| - 1])
  }

  lemma AmpleKeys(e: EState, offsets: set<nat>, op: Op, e': EState)
    requires Ample(e, offsets) && LocalStep(e, op, e') && (op.StoreOp? ==> op.offset in offsets)
    ensures Totals(e'.backs) == Totals(e.backs)
    ensures e'.metas.Keys == match op
      case StoreOp(o, _, _) => e.metas.Keys + {o}
      case InvalidateOp(o) => e.metas.Keys - {o}
      case _ => e.metas.Keys
  {
    hide Conserved, LocalStore, Holds, Injective, BacksValid, Totals, Drop;
    ConservedTracked(e);
    match op
    case StoreOp(o, data, now) =>
      var r, victim :| LocalStore(e, o, data, now, e', r, victim);
      AmpleStore(e, offsets, o, data, now, e', r, victim);
    case InvalidateOp(o) =>
      DropFacts(e, o);
      DropTotals(e, o);
    case LoadOp(o, now) =>
    case FlagOp(o, flags) =>
  }

  lemma AmpleStep(e: EState, offsets: set<nat>, op: Op, e': EState)
    requires Ample(e, offsets) && LocalStep(e, op, e') && (op.StoreOp? ==> op.offset in offsets)
    ensures Tracked(e) && Tracked(e') && Ample(e', offsets) && PageMap(e') == PlainStep(PageMap(e), op)
  {
    hide Conserved, LocalStep, Holds, Injective, BacksValid, Totals, PageMap;
    ConservedTracked(e);
    StepConserves(e, op, e');
    ConservedTracked(e');
    AmpleKeys(e, offsets, op, e');
    StepPages(e, op, e');
    PageKeys(e);
    PageKeys(e');
    SameMap(PageMap(e'), PlainStep(PageMap(e), op));
  }

  lemma SameMap(a: map<nat, Page>, b: map<nat, Page>)
    requires a.Keys == b.Keys && forall o | o in a :: a[o] == b[o]
    ensures a == b
  {
  }

  /**
   Over any run from an empty engine that stores only to `offsets`, with capacity for all of
   them, the engine holds exactly what a plain map would: every store succeeds, no page is
   evicted, and a load finds whatever was stored and not invalidated.
   */
  lemma {:induction false} PlainMap(es: seq<EState>, ops: seq<Op>, offsets: set<nat>)
    requires LocalRun(es, ops) && Ample(es[0], offsets) && es[0].metas == map[]
    requires forall k | 0 <= k < |ops| && ops[k].StoreOp? :: ops[k].offset in offsets
    ensures Tracked(es[|ops|]) && Ample(es[|ops|], offsets) && PageMap(es[|ops|]) == Plain(ops)
    decreases |ops|
  {
    assert |es| == |ops| + 1;
    hide Ample, LocalStep, LocalRun, Tracked, PageMap, PlainStep;
    if ops == [] {
      EmptyMap(es[0], offsets);
    } else {
      var n := |ops| - 1;
      RunPrefix(es, ops);
      PlainMap(es[..n + 1], ops[..n], offsets);
      AmpleStep(es[n], offsets, ops[n], es[n + 1]);
    }
  }

  lemma EmptyMap(e: EState, offsets: set<nat>)
    requires Ample(e, offsets) && e.metas == map[]
    ensures Tracked(e) && PageMap(e) == map[]
  {
  }
}
