/**
 Whole runs of an engine over local backends: conservation, when stores succeed, and
 what they drop.
 */
module LocalRuns {
  import opened Pages
  import opened Backends
  import opened Policy
  import opened EngineSpec

  datatype Op =
    | StoreOp(offset: nat, data: Page, now: nat)
    | LoadOp(offset: nat, now: nat)
    | InvalidateOp(offset: nat)
    | FlagOp(offset: nat, flags: bv8)    // set_flag or clear_flag

  /** One engine call over local backends, whatever it returned. */
  ghost predicate LocalStep(e: EState, op: Op, e': EState)
    requires Tracked(e)
  {
    match op
    case StoreOp(o, data, now) => exists r, victim :: LocalStore(e, o, data, now, e', r, victim)
    case LoadOp(o, now) => exists r :: LocalLoad(e, o, now, e', r)
    case InvalidateOp(o) => LocalInvalidate(e, o, e', true)
    case FlagOp(o, flags) =>
      e' == if o in e.metas then e.(metas := e.metas[o := e.metas[o].(flags := flags)]) else e
  }

  /** The tracked offsets whose page is in backend `i`. */
  function TrackedIn(metas: map<nat, Meta>, i: nat): set<nat> {
    set o | o in metas && metas[o].backend == i
  }

  /** Every backend holds exactly the pages tracked in it, and no more than it may. */
  predicate Counted(metas: map<nat, Meta>, backs: map<nat, BState>) {
    forall i | i in backs :: |TrackedIn(metas, i)| == backs[i].used <= backs[i].total
  }

  predicate Conserved(e: EState) {
    Tracked(e) && AllLocal(e.backs) && Counted(e.metas, e.backs)
  }

  // ------------------------------------------------------------ each call conserves

  lemma DropCounts(metas: map<nat, Meta>, backs: map<nat, BState>, o: nat, b: BState)
    requires Counted(metas, backs) && o in metas && metas[o].backend in backs
    requires b.used == backs[metas[o].backend].used - 1 && b.total == backs[metas[o].backend].total
    ensures Counted(metas - {o}, backs[metas[o].backend := b])
  {
    var k := metas[o].backend;
    forall i | i in backs ensures |TrackedIn(metas - {o}, i)| == backs[k := b][i].used <= backs[k := b][i].total {
      assert TrackedIn(metas, i) == TrackedIn(metas - {o}, i) + if i == k then {o} else {};
    }
  }

  lemma PutCounts(metas: map<nat, Meta>, backs: map<nat, BState>, o: nat, m: Meta, b: BState)
    requires Counted(metas, backs) && o !in metas && m.backend in backs
    requires b.used == backs[m.backend].used + 1 <= b.total
    ensures Counted(metas[o := m], backs[m.backend := b])
  {
    var k, metas' := m.backend, metas[o := m];
    forall i | i in backs ensures |TrackedIn(metas', i)| == backs[k := b][i].used <= backs[k := b][i].total {
      TrackedPut(metas, o, m, i);
    }
  }

  lemma TrackedPut(metas: map<nat, Meta>, o: nat, m: Meta, i: nat)
    requires o !in metas
    ensures |TrackedIn(metas[o := m], i)| == |TrackedIn(metas, i)| + if i == m.backend then 1 else 0
  {
    var before, after := TrackedIn(metas, i), TrackedIn(metas[o := m], i);
    if i == m.backend {
      assert after == before + {o};
    } else {
      assert after == before;
    }
  }

  lemma DropConserves(e: EState, o: nat)
    requires Conserved(e)
    ensures Conserved(Drop(e, o))
    ensures o in e.metas ==> |Drop(e, o).metas| == |e.metas| - 1 && Open(Drop(e, o).backs, e.metas[o].backend)
    ensures Drop(e, o).metas.Keys == e.metas.Keys - {o}
  {
    hide Holds, Injective, BacksValid, BState.Valid, Counted;
    DropKeepsTracked(e, o);
    if o in e.metas {
      var m := e.metas[o];
      HoldsAt(e, o);
      var b := e.backs[m.backend];
      LocalUsed(e, m.backend);
      CountedAt(e, m.backend);
      assert b.pages.Keys == (b.pages - {m.handle}).Keys + {m.handle};
      assert e.metas.Keys == (e.metas - {o}).Keys + {o};
      DropCounts(e.metas, e.backs, o, Without(b, m.handle));
    }
  }

  lemma CountedAt(e: EState, i: nat)
    requires Conserved(e) && i in e.backs
    ensures e.backs[i].used <= e.backs[i].total
  {
  }

  lemma ConservedFits(e: EState)
    requires Conserved(e)
    ensures forall j | j in e.backs :: e.backs[j].healthy && e.backs[j].used <= e.backs[j].total
  {
    forall j | j in e.backs ensures e.backs[j].healthy { BackValidAt(e, j); }
  }

  lemma LocalUsed(e: EState, i: nat)
    requires Tracked(e) && AllLocal(e.backs) && i in e.backs
    ensures e.backs[i].healthy && e.backs[i].used == |e.backs[i].pages|
  {
    BackValidAt(e, i);
  }

  /** A new page under a new handle of backend `i`, tracked by nothing yet. */
  function Grown(e: EState, i: nat, data: Page): EState
    requires i in e.backs
  {
    var b := e.backs[i];
    e.(backs := e.backs[i := Filled(b.(next := b.next + 1), b.next, data)])
  }

  lemma GrownTracked(e: EState, i: nat, data: Page)
    requires Tracked(e) && AllLocal(e.backs) && i in e.backs
    ensures Tracked(Grown(e, i, data)) && PageMap(Grown(e, i, data)) == PageMap(e)
    ensures forall p | p in e.metas :: PlaceOf(e.metas[p]) != Placed(i, e.backs[i].next)
  {
    var b := e.backs[i];
    var b' := Filled(b.(next := b.next + 1), b.next, data);
    FreshHandle(e, i, data);
    BackShrinks(e, i, b');
    ShrinksTracked(e, Grown(e, i, data));
    SamePages(e, i, b');
  }

  lemma PutTracked(e: EState, i: nat, o: nat, data: Page, now: nat)
    requires Tracked(e) && AllLocal(e.backs) && o !in e.metas && i in e.backs
    ensures Tracked(Put(e, i, o, data, now)) && AllLocal(Put(e, i, o, data, now).backs)
    ensures PageMap(Put(e, i, o, data, now)) == PageMap(e)[o := data]
  {
    hide Holds, Injective, BacksValid, PagesOf;
    GrownTracked(e, i, data);
    var b := e.backs[i];
    TrackAdds(Grown(e, i, data), i, b.next, o, Meta(b.next, i, b.tier, 0, now, 0));
  }

  lemma PutConserves(e: EState, i: nat, o: nat, data: Page, now: nat)
    requires Conserved(e) && o !in e.metas && Open(e.backs, i)
    ensures Conserved(Put(e, i, o, data, now))
    ensures Put(e, i, o, data, now).backs[i].used == e.backs[i].used + 1
  {
    hide Tracked, Counted;
    PutTracked(e, i, o, data, now);
    FreshHandle(e, i, data);
    var b := e.backs[i];
    PutCounts(e.metas, e.backs, o, Meta(b.next, i, b.tier, 0, now, 0), Filled(b.(next := b.next + 1), b.next, data));
  }

  lemma FreshHandle(e: EState, i: nat, data: Page)
    requires Tracked(e) && i in e.backs && e.backs[i].IsLocal()
    ensures e.backs[i].next !in e.backs[i].pages
    ensures |e.backs[i].pages[e.backs[i].next := data]| == e.backs[i].used + 1
  {
    var b := e.backs[i];
    assert b.Valid();
    assert b.pages[b.next := data].Keys == b.pages.Keys + {b.next};
  }

  lemma CountConserves(e: EState, e': EState)
    requires Conserved(e) && e'.metas == e.metas && e'.backs == e.backs
    ensures Conserved(e')
  {
  }

  /** A state with room after the old copy of `o`, and perhaps a victim, went. */
  ghost predicate Cleared(e: EState, o: nat, e2: EState, victim: Option<nat>)
    requires Conserved(e)
  {
    && Conserved(e2) && o !in e2.metas
    && e2.metas.Keys == e.metas.Keys - {o} - (if victim.Some? then {victim.value} else {})
    && (forall p | p in e2.metas :: e2.metas[p] == e.metas[p])
    && (victim.Some? ==> victim.value != o && victim.value in e.metas)
  }

  lemma DropFacts(e: EState, o: nat)
    requires Conserved(e)
    ensures Conserved(Drop(e, o)) && Drop(e, o).stats == e.stats
    ensures Drop(e, o).metas == e.metas - {o}
    ensures o !in e.metas ==> Drop(e, o) == e
    ensures o in e.metas ==> SomeRoom(Drop(e, o).backs)
  {
    hide Conserved, Holds, Injective, BacksValid, Open, SomeRoom;
    ConservedTracked(e);
    DropConserves(e, o);
    if o in e.metas {
      HasRoomAt(Drop(e, o).backs, e.metas[o].backend);
    } else {
      MinusAbsent(e.metas, o);
    }
  }

  lemma MinusAbsent(metas: map<nat, Meta>, o: nat)
    requires o !in metas
    ensures metas - {o} == metas
  {
  }

  lemma HasRoomAt(backs: map<nat, BState>, i: nat)
    requires Open(backs, i)
    ensures SomeRoom(backs)
  {
  }

  /** What goes before the new page is put: nothing, the old copy, or one victim. */
  lemma ClearedBy(e: EState, o: nat, victim: Option<nat>) returns (e2: EState)
    requires Conserved(e) && (victim.Some? ==> o !in e.metas)
    requires victim.Some? ==> victim.value in e.metas
    ensures e2 == if victim.Some? then CountInvalidated(Drop(e, victim.value)) else Drop(e, o)
    ensures Cleared(e, o, e2, victim)
    ensures victim.Some? ==> SomeRoom(e2.backs)
    ensures e2.stats == e.stats.(invalidated := e.stats.invalidated + (if victim.Some? then 1 else 0))
  {
    hide Conserved, Drop, SomeRoom, Holds, Injective, BacksValid;
    ConservedTracked(e);
    if victim.Some? {
      DropFacts(e, victim.value);
      e2 := CountInvalidated(Drop(e, victim.value));
      CountConserves(Drop(e, victim.value), e2);
    } else {
      DropFacts(e, o);
      e2 := Drop(e, o);
    }
  }

  /**
   A store, taken apart. It fails exactly when the offset is not tracked, nothing
   has room and everything is pinned, and then changes only a counter. Otherwise
   it clears the way and puts the page at the best placement; a page other than
   the old copy goes only when nothing had room.
   */
  lemma StoreTakenApart(e: EState, o: nat, data: Page, now: nat, e': EState, r: Result<Placed>, victim: Option<nat>)
    returns (e2: EState)
    requires Conserved(e) && LocalStore(e, o, data, now, e', r, victim)
    ensures r.Ok? <==> o in e.metas || SomeRoom(e.backs) || SomeVictim(e)
    ensures r.Err? ==> e' == CountStoreError(e) && victim.None?
    ensures r.Ok? ==> Cleared(e, o, e2, victim) && PutAt(e2, o, data, now, e', r)
    ensures r.Ok? ==> e2 == if victim.Some? then CountInvalidated(Drop(e, victim.value)) else Drop(e, o)
    ensures r.Ok? ==> e2.stats == e.stats.(invalidated := e.stats.invalidated + (if victim.Some? then 1 else 0))
    ensures victim.Some? <==> o !in e.metas && !SomeRoom(e.backs) && SomeVictim(e)
    ensures victim.Some? ==> victim.value in e.metas && IsVictim(e.metas, e.metas[victim.value].backend, victim.value)
  {
    hide Conserved, Drop, SomeRoom, IsPlacement, Put, Cleared;
    ConservedTracked(e);
    DropFacts(e, o);
    e2 := e;
    if victim.Some? {
      assert Drop(e, o) == e;
      VictimUnpinned(e, victim.value);
      e2 := ClearedBy(e, o, victim);
    } else if r.Ok? {
      e2 := ClearedBy(e, o, None);
    }
  }

  lemma VictimUnpinned(e: EState, v: nat)
    requires v in e.metas && IsVictim(e.metas, e.metas[v].backend, v)
    ensures SomeVictim(e)
  {
  }

  lemma ConservedTracked(e: EState)
    requires Conserved(e)
    ensures Tracked(e) && AllLocal(e.backs)
  {
  }

  /** The store's effect on what is tracked: the new page comes, and at most one other goes. */
  lemma StoreConserves(e: EState, o: nat, data: Page, now: nat, e': EState, r: Result<Placed>, victim: Option<nat>)
    requires Conserved(e) && LocalStore(e, o, data, now, e', r, victim)
    ensures Conserved(e')
    ensures r.Ok? ==> o in e'.metas && e'.metas.Keys == e.metas.Keys + {o} - (if victim.Some? then {victim.value} else {})
    ensures forall p | p in e'.metas && p != o :: p in e.metas && e'.metas[p] == e.metas[p]
    ensures e'.stats.stored == e.stats.stored + (if r.Ok? then 1 else 0)
    ensures e'.stats.invalidated == e.stats.invalidated + (if victim.Some? then 1 else 0)
  {
    hide Conserved, LocalStore, Tracked, IsPlacement, SomeRoom, SomeVictim, IsVictim, Drop, Cleared, PutAt;
    var e2 := StoreTakenApart(e, o, data, now, e', r, victim);
    if r.Err? {
      CountConserves(e, e');
    } else {
      ClearedThenPut(e, o, e2, victim, data, now, e', r);
    }
  }

  lemma ClearedThenPut(e: EState, o: nat, e2: EState, victim: Option<nat>, data: Page, now: nat, e': EState,
                       r: Result<Placed>)
    requires Conserved(e) && Cleared(e, o, e2, victim) && PutAt(e2, o, data, now, e', r)
    ensures Conserved(e') && e'.stats == e2.stats.(stored := e2.stats.stored + 1)
    ensures o in e'.metas && e'.metas.Keys == e.metas.Keys + {o} - (if victim.Some? then {victim.value} else {})
    ensures forall p | p in e'.metas && p != o :: p in e.metas && e'.metas[p] == e.metas[p]
  {
    hide Conserved, Tracked, IsPlacement, Put;
    var i := r.value.backend;
    PlacementOpen(e2.backs, i);
    PutConserves(e2, i, o, data, now);
    CountConserves(Put(e2, i, o, data, now), e');
    PutFacts(e2, i, o, data, now);
    var gone := if victim.Some? then {victim.value} else {};
    assert e'.metas.Keys == e2.metas.Keys + {o};
  }

  lemma PutFacts(e: EState, i: nat, o: nat, data: Page, now: nat)
    requires i in e.backs
    ensures var e' := Put(e, i, o, data, now);
            o in e'.metas && e'.metas == e.metas[o := e'.metas[o]] && e'.stats == e.stats
  {
  }

  lemma PlacementOpen(backs: map<nat, BState>, i: nat)
    requires IsPlacement(backs, i)
    ensures Open(backs, i)
  {
  }

  lemma LoadConserves(e: EState, o: nat, now: nat, e': EState, r: Result<Page>)
    requires Conserved(e) && LocalLoad(e, o, now, e', r)
    ensures Conserved(e') && e'.metas.Keys == e.metas.Keys
    ensures e'.stats.stored == e.stats.stored && e'.stats.invalidated == e.stats.invalidated
  {
    if o in e.metas {
      TouchKeeps(e, o, now);
      RetagConserves(e, o, Touched(e.metas[o], now));
    }
  }

  /** New metadata for an offset whose page stays where it is. */
  lemma RetagConserves(e: EState, o: nat, m: Meta)
    requires Conserved(e) && o in e.metas && PlaceOf(m) == PlaceOf(e.metas[o]) && m.tier == e.metas[o].tier
    ensures Conserved(e.(metas := e.metas[o := m]))
  {
    var e' := e.(metas := e.metas[o := m]);
    forall p | p in e'.metas ensures p in e.metas && PlaceOf(e'.metas[p]) == PlaceOf(e.metas[p]) {}
    forall i | i in e.backs ensures TrackedIn(e'.metas, i) == TrackedIn(e.metas, i) {}
  }

  // ------------------------------------------------------------ whole runs

  /** `es[k + 1]` is what call `ops[k]` makes of `es[k]`. */
  ghost predicate LocalRun(es: seq<EState>, ops: seq<Op>) {
    && |es| == |ops| + 1
    && forall k | 0 <= k < |ops| :: Tracked(es[k]) && LocalStep(es[k], ops[k], es[k + 1])
  }

  lemma RunPrefix(es: seq<EState>, ops: seq<Op>)
    requires LocalRun(es, ops) && ops != []
    ensures var n := |ops| - 1;
            && |es| == n + 2 && LocalRun(es[..n + 1], ops[..n])
            && Tracked(es[n]) && LocalStep(es[n], ops[n], es[n + 1])
  {
    hide Tracked, LocalStep;
  }

  /** Stores that silently replaced a page already tracked. */
  function Replacements(es: seq<EState>, ops: seq<Op>): nat
    requires |es| == |ops| + 1
    decreases |ops|
  {
    if ops == [] then 0
    else
      var n := |ops| - 1;
      Replacements(es[..n + 1], ops[..n]) + if ops[n].StoreOp? && ops[n].offset in es[n].metas then 1 else 0
  }

  /** Pages stored and not accounted for by what is tracked or was invalidated. */
  function Missing(e: EState): int {
    e.stats.stored - |e.metas| - e.stats.invalidated
  }

  lemma StoreBalances(e: EState, o: nat, data: Page, now: nat, e': EState, r: Result<Placed>, victim: Option<nat>)
    requires Conserved(e) && LocalStore(e, o, data, now, e', r, victim)
    ensures Missing(e') == Missing(e) + if o in e.metas then 1 else 0
  {
    hide Conserved, LocalStore, Tracked, SomeRoom, SomeVictim, IsVictim, Cleared, PutAt;
    var e2 := StoreTakenApart(e, o, data, now, e', r, victim);
    StoreConserves(e, o, data, now, e', r, victim);
    if r.Ok? {
      KeysChanged(e.metas.Keys, o, victim, e'.metas.Keys);
    }
  }

  lemma KeysChanged(before: set<nat>, o: nat, victim: Option<nat>, after: set<nat>)
    requires after == before + {o} - (if victim.Some? then {victim.value} else {})
    requires victim.Some? ==> victim.value in before && victim.value != o && o !in before
    ensures |after| == |before| + (if o in before || victim.Some? then 0 else 1)
  {
    if victim.Some? {
      assert before + {o} == after + {victim.value};
    } else if o in before {
      assert after == before;
    }
  }

  lemma StepConserves(e: EState, op: Op, e': EState)
    requires Conserved(e) && LocalStep(e, op, e')
    ensures Conserved(e')
    ensures Missing(e') == Missing(e) + if op.StoreOp? && op.offset in e.metas then 1 else 0
  {
    hide Conserved, LocalStore, LocalLoad, Holds, Injective, BacksValid;
    ConservedTracked(e);
    match op
    case StoreOp(o, data, now) =>
      var r, victim :| LocalStore(e, o, data, now, e', r, victim);
      StoreConserves(e, o, data, now, e', r, victim);
      StoreBalances(e, o, data, now, e', r, victim);
    case LoadOp(o, now) =>
      var r :| LocalLoad(e, o, now, e', r);
      LoadConserves(e, o, now, e', r);
      SameKeysSize(e.metas, e'.metas);
    case InvalidateOp(o) =>
      DropConserves(e, o);
      CountConserves(Drop(e, o), e');
    case FlagOp(o, flags) =>
      if o in e.metas {
        RetagConserves(e, o, e.metas[o].(flags := flags));
        SameKeysSize(e.metas, e'.metas);
      }
  }

  lemma SameKeysSize(a: map<nat, Meta>, b: map<nat, Meta>)
    requires a.Keys == b.Keys
    ensures |a| == |b|
  {
    assert |a.Keys| == |b.Keys|;
  }

  /**
   Over every run from a fresh engine: each backend's count is the number of
   offsets tracked in it and within its limit, and every page stored is tracked,
   was invalidated or evicted, or was replaced by a later store.
   */
  lemma {:induction false} RunConserves(es: seq<EState>, ops: seq<Op>)
    requires LocalRun(es, ops) && Conserved(es[0]) && Missing(es[0]) == 0
    ensures Conserved(es[|ops|])
    ensures var e := es[|ops|];
            e.stats.stored == |e.metas| + e.stats.invalidated + Replacements(es, ops)
    decreases |ops|
  {
    hide Conserved, LocalStep, Tracked;
    if ops != [] {
      var n := |ops| - 1;
      RunConserves(es[..n + 1], ops[..n]);
      StepConserves(es[n], ops[n], es[n + 1]);
    }
  }

  // ------------------------------------------------------------ pages

  /** Dropping an offset leaves every other page alone. */
  lemma DropPages(e: EState, o: nat)
    requires Conserved(e)
    ensures Tracked(e) && Tracked(Drop(e, o)) && Shrinks(e, Drop(e, o))
  {
    hide Holds, Injective, Shrinks;
    ConservedTracked(e);
    DropKeepsTracked(e, o);
    if o in e.metas {
      HoldsAt(e, o);
      BackValidAt(e, e.metas[o].backend);
      LocalAt(e.backs, e.metas[o].backend);
      var b := e.backs[e.metas[o].backend];
      BackValidAt(Drop(e, o), e.metas[o].backend);
      FreeShrinks(e, o, Without(b, e.metas[o].handle), true);
    } else {
      ShrinksReflexive(e);
    }
  }

  lemma SamePages(e: EState, i: nat, b': BState)
    requires Tracked(e) && i in e.backs && Holds(e.metas, e.backs[i := b'])
    requires forall h | h in e.backs[i].pages :: h in b'.pages && b'.pages[h] == e.backs[i].pages[h]
    ensures PageMap(e.(backs := e.backs[i := b'])) == PageMap(e)
  {
  }

  /** After a store the offset holds the new page or nothing; every other page stayed or went. */
  lemma StorePages(e: EState, o: nat, data: Page, now: nat, e': EState, r: Result<Placed>, victim: Option<nat>)
    requires Conserved(e) && LocalStore(e, o, data, now, e', r, victim)
    ensures Tracked(e) && Tracked(e') && LossyStore(PageMap(e), o, data, r.Ok?, PageMap(e'))
  {
    hide Conserved, LocalStore, Cleared, IsVictim, SomeRoom, SomeVictim, IsPlacement, Put, Drop;
    hide Holds, Injective, BacksValid, Shrinks, PageMap;
    ConservedTracked(e);
    StoreConserves(e, o, data, now, e', r, victim);
    ConservedTracked(e');
    var e2 := StoreTakenApart(e, o, data, now, e', r, victim);
    if r.Err? {
      Uncounted(e, e');
      ErrIsLossy(e, o, data);
    } else {
      ClearedShrinks(e, o, e2, victim);
      ClearedAbsent(e, o, e2, victim);
      ShrinksTracked(e, e2);
      var i := r.value.backend;
      PlacementOpen(e2.backs, i);
      PutTracked(e2, i, o, data, now);
      Uncounted(Put(e2, i, o, data, now), e');
      PutIsLossy(e, e2, o, data, PageMap(e'));
    }
  }

  lemma ClearedShrinks(e: EState, o: nat, e2: EState, victim: Option<nat>)
    requires Conserved(e) && (victim.Some? ==> victim.value in e.metas)
    requires e2 == if victim.Some? then CountInvalidated(Drop(e, victim.value)) else Drop(e, o)
    ensures Tracked(e) && Shrinks(e, e2)
  {
    hide Conserved, Holds, Injective, BacksValid, Shrinks, Drop;
    if victim.Some? {
      DropPages(e, victim.value);
      ShrinksUncounted(e, Drop(e, victim.value), e2);
    } else {
      DropPages(e, o);
    }
  }

  lemma ClearedAbsent(e: EState, o: nat, e2: EState, victim: Option<nat>)
    requires Conserved(e) && Cleared(e, o, e2, victim)
    ensures o !in e2.metas
  {
  }

  lemma PutIsLossy(e: EState, e2: EState, o: nat, data: Page, after: map<nat, Page>)
    requires Tracked(e) && Shrinks(e, e2) && o !in e2.metas && after == PageMap(e2)[o := data]
    ensures LossyStore(PageMap(e), o, data, true, after)
  {
    hide Injective, BacksValid, SameBackends;
    PageKeys(e2);
    hide PagesOf;
    assert after - {o} == PageMap(e2);
  }

  lemma ErrIsLossy(e: EState, o: nat, data: Page)
    requires Tracked(e) && o !in e.metas
    ensures LossyStore(PageMap(e), o, data, false, PageMap(e))
  {
  }

  /** Where each page after a call comes from. */
  lemma StepPages(e: EState, op: Op, e': EState)
    requires Conserved(e) && LocalStep(e, op, e')
    ensures Tracked(e) && Tracked(e')
    ensures forall o | o in e'.metas ::
              if op.StoreOp? && op.offset == o then PageMap(e')[o] == op.data
              else o in e.metas && PageMap(e')[o] == PageMap(e)[o]
  {
    hide Conserved, LocalStore, Holds, Injective, BacksValid, PagesOf, LossyStore;
    ConservedTracked(e);
    StepConserves(e, op, e');
    ConservedTracked(e');
    PageKeys(e);
    PageKeys(e');
    match op
    case StoreOp(o, data, now) =>
      var r, victim :| LocalStore(e, o, data, now, e', r, victim);
      StorePages(e, o, data, now, e', r, victim);
      LossyPages(e, o, data, r.Ok?, e');
    case LoadOp(o, now) => RetaggedPages(e, e');
    case InvalidateOp(o) => DropPages(e, o);
    case FlagOp(o, flags) => RetaggedPages(e, e');
  }

  /** New flags and access times leave the pages alone. */
  lemma RetaggedPages(e: EState, e': EState)
    requires Tracked(e) && Tracked(e') && e'.backs == e.backs && e'.metas.Keys == e.metas.Keys
    requires forall o | o in e.metas :: PlaceOf(e'.metas[o]) == PlaceOf(e.metas[o])
    ensures PageMap(e') == PageMap(e)
  {
    hide Injective, BacksValid;
  }

  lemma LossyPages(e: EState, o: nat, data: Page, ok: bool, e': EState)
    requires Tracked(e) && Tracked(e') && LossyStore(PageMap(e), o, data, ok, PageMap(e'))
    ensures forall p | p in e'.metas :: if p == o then PageMap(e')[p] == data else p in e.metas && PageMap(e')[p] == PageMap(e)[p]
  {
    forall p | p in e'.metas && p != o ensures p in e.metas && PageMap(e')[p] == PageMap(e)[p] {
      assert p in PageMap(e') - {o};
    }
  }
}
