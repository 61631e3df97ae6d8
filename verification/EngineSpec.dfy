/**
 The engine's state as a value, the invariant that ties the tracked pages to the
 backends, and what each engine call means.

 Two readings of every call: for backends that may fail in any way, a call is a
 step of a lossy page map; for local backends the call is exact.
 */
module EngineSpec {
  import opened Pages
  import opened Backends
  import opened Policy
  import Fractions

  datatype Stats = Stats(stored: nat, loaded: nat, invalidated: nat, storeErrors: nat, loadErrors: nat)

  datatype EState = EState(metas: map<nat, Meta>, backs: map<nat, BState>, stats: Stats)

  datatype Placed = Placed(backend: nat, handle: nat)

  function PlaceOf(m: Meta): Placed {
    Placed(m.backend, m.handle)
  }

  /** Every tracked offset has its page in the backend and tier recorded for it. */
  predicate Holds(metas: map<nat, Meta>, backs: map<nat, BState>) {
    forall o | o in metas ::
      && metas[o].backend in backs
      && metas[o].handle in backs[metas[o].backend].pages
      && metas[o].tier == backs[metas[o].backend].tier
  }

  /** No two tracked offsets share a page. */
  predicate Injective(metas: map<nat, Meta>) {
    forall o, p | o in metas && p in metas && PlaceOf(metas[o]) == PlaceOf(metas[p]) :: o == p
  }

  predicate BacksValid(backs: map<nat, BState>) {
    forall i | i in backs :: backs[i].Valid()
  }

  predicate Tracked(e: EState) {
    Holds(e.metas, e.backs) && Injective(e.metas) && BacksValid(e.backs)
  }

  /** The abstraction: the page each tracked offset stands for. */
  function PageMap(e: EState): map<nat, Page>
    requires Holds(e.metas, e.backs)
  {
    PagesOf(e.metas, e.backs)
  }

  function PagesOf(metas: map<nat, Meta>, backs: map<nat, BState>): map<nat, Page>
    requires Holds(metas, backs)
  {
    map o | o in metas :: backs[metas[o].backend].pages[metas[o].handle]
  }

  // ------------------------------------------------------------ placement

  /** Preference order of the tiers, best first. */
  function Rank(t: Tier): nat {
    match t
    case Compressed => 0
    case Cxl => 1
    case Rdma => 2
    case Gpu => 3
    case Local => 4
  }

  predicate Open(backs: map<nat, BState>, i: nat) {
    i in backs && backs[i].HasRoom()
  }

  ghost predicate SomeRoom(backs: map<nat, BState>) {
    exists i :: Open(backs, i)
  }

  /** The tier a store goes to: the best one with an open backend. */
  ghost predicate IsTier(backs: map<nat, BState>, t: Tier) {
    && (exists i :: Open(backs, i) && backs[i].tier == t)
    && (forall i | Open(backs, i) :: Rank(t) <= Rank(backs[i].tier))
  }

  /** Some backend of the tier has room. */
  ghost predicate OpenTier(backs: map<nat, BState>, t: Tier) {
    exists i :: Open(backs, i) && backs[i].tier == t
  }

  /** The same by name: compressed memory, then CXL, then RDMA, then GPU memory, and plain memory last. */
  ghost predicate FirstTier(backs: map<nat, BState>, t: Tier) {
    match t
    case Compressed => OpenTier(backs, Compressed)
    case Cxl => OpenTier(backs, Cxl) && !OpenTier(backs, Compressed)
    case Rdma => OpenTier(backs, Rdma) && !OpenTier(backs, Compressed) && !OpenTier(backs, Cxl)
    case Gpu =>
      OpenTier(backs, Gpu) && !OpenTier(backs, Compressed) && !OpenTier(backs, Cxl) && !OpenTier(backs, Rdma)
    case Local =>
      && OpenTier(backs, Local) && !OpenTier(backs, Compressed) && !OpenTier(backs, Cxl)
      && !OpenTier(backs, Rdma) && !OpenTier(backs, Gpu)
  }

  lemma TierByName(backs: map<nat, BState>, t: Tier)
    ensures IsTier(backs, t) <==> FirstTier(backs, t)
  {
    hide BState.HasRoom;
    if FirstTier(backs, t) {
      forall i | Open(backs, i) ensures Rank(t) <= Rank(backs[i].tier) {
        assert OpenTier(backs, backs[i].tier);
      }
    }
  }

  /** Backend `i` goes before `j`: less utilised, or equally and lower id. Utilisations are exact fractions. */
  predicate Before(backs: map<nat, BState>, i: nat, j: nat)
    requires i in backs && j in backs
  {
    var bi, bj := backs[i], backs[j];
    bi.used * bj.total < bj.used * bi.total || (bi.used * bj.total == bj.used * bi.total && i <= j)
  }

  /** The open backend of the best tier that goes before all others of that tier. */
  ghost predicate IsPlacement(backs: map<nat, BState>, i: nat) {
    && Open(backs, i) && IsTier(backs, backs[i].tier)
    && forall j | Open(backs, j) && backs[j].tier == backs[i].tier :: Before(backs, i, j)
  }

  /** The backends a store to tier `t` may try: those with room in the tier, or any with room if it has none. */
  ghost function Pool(backs: map<nat, BState>, t: Tier): set<nat> {
    var pool := set i | i in backs && Open(backs, i) && backs[i].tier == t;
    if pool != {} then pool else set i | i in backs && Open(backs, i)
  }

  /** `ids` lists the pool, each backend once, best first. */
  ghost predicate Ranked(backs: map<nat, BState>, ids: seq<nat>, pool: set<nat>)
    requires pool <= backs.Keys
  {
    && (forall i :: i in ids <==> i in pool)
    && forall k, l | 0 <= k < l < |ids| :: ids[k] != ids[l] && Before(backs, ids[k], ids[l])
  }

  lemma BeforeTransitive(backs: map<nat, BState>, i: nat, j: nat, k: nat)
    requires i in backs && j in backs && k in backs
    requires backs[i].total > 0 && backs[j].total > 0 && backs[k].total > 0
    requires Before(backs, i, j) && Before(backs, j, k)
    ensures Before(backs, i, k)
  {
    Fractions.Transitive(backs[i].used, backs[i].total, backs[j].used, backs[j].total, backs[k].used, backs[k].total);
  }

  lemma InsertRanked(backs: map<nat, BState>, ids: seq<nat>, i: nat, k: nat, pool: set<nat>)
    requires pool <= backs.Keys && Ranked(backs, ids, pool) && i in backs && i !in pool && k <= |ids|
    requires forall j | j in pool + {i} :: backs[j].total > 0
    requires forall l | 0 <= l < k :: ids[l] in backs && Before(backs, ids[l], i)
    requires k < |ids| ==> ids[k] in backs && !Before(backs, ids[k], i)
    ensures Ranked(backs, ids[..k] + [i] + ids[k..], pool + {i})
  {
    hide Before;
    var ids' := ids[..k] + [i] + ids[k..];
    Listed(ids, i, k, pool);
    assert forall p | 0 <= p < |ids| :: ids[p] in pool;
    forall l, m | 0 <= l < m < |ids'| ensures ids'[l] != ids'[m] && Before(backs, ids'[l], ids'[m]) {
      if l == k {
        assert ids[k] in pool && ids[m - 1] in pool;
        BeforeTotal(backs, i, ids[k]);
        if k < m - 1 { BeforeTransitive(backs, i, ids[k], ids[m - 1]); }
      }
    }
  }

  lemma Listed(ids: seq<nat>, i: nat, k: nat, pool: set<nat>)
    requires k <= |ids| && forall j :: j in ids <==> j in pool
    ensures forall j :: j in ids[..k] + [i] + ids[k..] <==> j in pool + {i}
  {
    var ids' := ids[..k] + [i] + ids[k..];
    forall j ensures j in ids' <==> j in pool + {i} {
      if j in pool {
        var l :| 0 <= l < |ids| && ids[l] == j;
        assert ids'[if l < k then l else l + 1] == j;
      }
    }
  }

  lemma RankedEmpty(backs: map<nat, BState>)
    ensures Ranked(backs, [], {})
  {
  }

  /** A backend a store to tier `t` may try, given whether the tier has room. */
  predicate Eligible(backs: map<nat, BState>, t: Tier, exact: bool, i: nat) {
    Open(backs, i) && (exact ==> backs[i].tier == t)
  }

  lemma EligibleHasRoom(backs: map<nat, BState>, t: Tier, exact: bool, i: nat)
    requires Eligible(backs, t, exact, i)
    ensures i in backs && backs[i].total > 0
  {
  }

  lemma PoolIs(backs: map<nat, BState>, t: Tier, exact: bool, pool: set<nat>)
    requires exact <==> exists i :: Open(backs, i) && backs[i].tier == t
    requires forall i :: i in pool <==> i in backs && Eligible(backs, t, exact, i)
    ensures pool == Pool(backs, t)
  {
    var inTier := set i | i in backs && Open(backs, i) && backs[i].tier == t;
    if exact {
      var i :| Open(backs, i) && backs[i].tier == t;
      assert i in inTier;
    } else {
      assert inTier == {};
    }
  }

  /** Any two backends are ordered one way or the other. */
  lemma BeforeTotal(backs: map<nat, BState>, i: nat, j: nat)
    requires i in backs && j in backs
    ensures Before(backs, i, j) || Before(backs, j, i)
  {
  }

  /** The order by 64-bit floats, which the code sorts by, is this one for backends of up to 94906265 pages. */
  lemma BeforeByFloats(fl: real -> real, backs: map<nat, BState>, i: nat, j: nat)
    requires Fractions.Rounds(fl) && i in backs && j in backs
    requires backs[i].used <= backs[i].total && 0 < backs[i].total <= 94_906_265
    requires backs[j].used <= backs[j].total && 0 < backs[j].total <= 94_906_265
    ensures var ui, uj := fl(backs[i].used as real / backs[i].total as real), fl(backs[j].used as real / backs[j].total as real);
      Before(backs, i, j) <==> ui < uj || (ui == uj && i <= j)
  {
    Fractions.FloatsAgree(fl, backs[i].used, backs[i].total, backs[j].used, backs[j].total);
  }

  // ------------------------------------------------------------ exact meaning, local backends

  predicate AllLocal(backs: map<nat, BState>) {
    forall i | i in backs :: backs[i].IsLocal()
  }

  /** Drops one offset: its metadata, and its page from its backend. */
  function Drop(e: EState, o: nat): EState
    requires Holds(e.metas, e.backs)
  {
    if o !in e.metas then e
    else
      var m := e.metas[o];
      e.(metas := e.metas - {o}, backs := e.backs[m.backend := Without(e.backs[m.backend], m.handle)])
  }

  /** Stores a page under a new handle of backend `i` and tracks it, unpinned and never accessed. */
  function Put(e: EState, i: nat, o: nat, data: Page, now: nat): EState
    requires i in e.backs
  {
    var b := e.backs[i];
    e.(metas := e.metas[o := Meta(b.next, i, b.tier, 0, now, 0)],
       backs := e.backs[i := Filled(b.(next := b.next + 1), b.next, data)])
  }

  function CountStored(e: EState): EState { e.(stats := e.stats.(stored := e.stats.stored + 1)) }
  function CountLoaded(e: EState): EState { e.(stats := e.stats.(loaded := e.stats.loaded + 1)) }
  function CountInvalidated(e: EState): EState { e.(stats := e.stats.(invalidated := e.stats.invalidated + 1)) }
  function CountStoreError(e: EState): EState { e.(stats := e.stats.(storeErrors := e.stats.storeErrors + 1)) }
  function CountLoadError(e: EState): EState { e.(stats := e.stats.(loadErrors := e.stats.loadErrors + 1)) }

  /** Some backend has a page that may be evicted. */
  ghost predicate SomeVictim(e: EState) {
    exists o :: o in e.metas && !Contains(e.metas[o].flags, PINNED)
  }

  /** Eviction: least recently used within the backend it comes from; `None` only if all is pinned. */
  ghost predicate LocalEvict(e: EState, e': EState, victim: Option<nat>)
    requires Holds(e.metas, e.backs)
  {
    match victim
    case None => !SomeVictim(e) && e' == e
    case Some(v) => v in e.metas && IsVictim(e.metas, e.metas[v].backend, v) && e' == CountInvalidated(Drop(e, v))
  }

  /**
   A store: the old copy goes first; if that leaves no room, one victim goes too;
   then, if there is room, the page goes to the best placement.
   */
  ghost predicate LocalStore(e: EState, o: nat, data: Page, now: nat, e': EState, r: Result<Placed>, victim: Option<nat>)
    requires Tracked(e)
  {
    DropKeepsTracked(e, o);
    var e1 := Drop(e, o);
    if SomeRoom(e1.backs) then
      victim.None? && PutAt(e1, o, data, now, e', r)
    else match victim
      case None => !SomeVictim(e1) && r.Err? && e' == CountStoreError(e1)
      case Some(v) =>
        && v in e1.metas && IsVictim(e1.metas, e1.metas[v].backend, v)
        && var e2 := CountInvalidated(Drop(e1, v));
        if SomeRoom(e2.backs) then PutAt(e2, o, data, now, e', r)
        else r.Err? && e' == CountStoreError(e2)
  }

  /** The page put on backend `i`. */
  predicate PutOn(e: EState, i: nat, o: nat, data: Page, now: nat, e': EState, r: Result<Placed>) {
    && i in e.backs && r == Ok(Placed(i, e.backs[i].next))
    && e' == CountStored(Put(e, i, o, data, now))
  }

  ghost predicate PutAt(e: EState, o: nat, data: Page, now: nat, e': EState, r: Result<Placed>) {
    && r.Ok? && IsPlacement(e.backs, r.value.backend)
    && r.value.handle == e.backs[r.value.backend].next
    && e' == CountStored(Put(e, r.value.backend, o, data, now))
  }

  ghost predicate LocalLoad(e: EState, o: nat, now: nat, e': EState, r: Result<Page>)
    requires Holds(e.metas, e.backs)
  {
    if o in e.metas then
      && r == Ok(PageMap(e)[o])
      && e' == CountLoaded(e.(metas := e.metas[o := Touched(e.metas[o], now)]))
    else r.Err? && e' == CountLoadError(e)
  }

  ghost predicate LocalInvalidate(e: EState, o: nat, e': EState, ok: bool)
    requires Holds(e.metas, e.backs)
  {
    ok && e' == if o in e.metas then CountInvalidated(Drop(e, o)) else e
  }

  // ------------------------------------------------------------ what eviction may cost

  /** At most one page of each backend: its least recently used unpinned one. */
  ghost predicate OnePerBackend(metas: map<nat, Meta>, lost: set<nat>) {
    && (forall v | v in lost :: v in metas && IsVictim(metas, metas[v].backend, v))
    && (forall v, w | v in lost && w in lost && v != w :: metas[v].backend != metas[w].backend)
  }

  lemma LoseNone(metas: map<nat, Meta>)
    ensures OnePerBackend(metas, {}) && metas - {} == metas
  {
  }

  lemma LoseOne(metas: map<nat, Meta>, lost: set<nat>, i: nat, gone: set<nat>)
    requires OnePerBackend(metas, lost) && forall w | w in lost :: w in metas && metas[w].backend != i
    requires gone == {} || exists v :: gone == {v} && IsVictim(metas - lost, i, v)
    ensures OnePerBackend(metas, lost + gone) && metas - lost - gone == metas - (lost + gone)
    ensures forall v | v in gone :: v in metas && metas[v].backend == i
  {
    if gone != {} {
      var v :| gone == {v} && IsVictim(metas - lost, i, v);
      forall p | p in metas && Evictable(metas[p], i) ensures AtMost(metas[v], metas[p]) {
        assert p in metas - lost;
      }
    }
  }

  /** A backend has room that freeing the old copy of `o` cannot take away. */
  ghost predicate Uncrowded(e: EState, o: nat) {
    exists i :: Open(e.backs, i) && (o in e.metas ==> e.metas[o].backend != i)
  }

  lemma StaysUncrowded(e: EState, o: nat, backs: map<nat, BState>)
    requires forall i | i in e.backs && (o in e.metas ==> e.metas[o].backend != i) :: i in backs && backs[i] == e.backs[i]
    ensures Uncrowded(e, o) ==> SomeRoom(backs)
  {
    if Uncrowded(e, o) {
      var i :| Open(e.backs, i) && (o in e.metas ==> e.metas[o].backend != i);
      assert Open(backs, i);
    }
  }

  lemma PageKeys(e: EState)
    requires Holds(e.metas, e.backs)
    ensures PageMap(e).Keys == e.metas.Keys
  {
  }

  lemma RestKept(m: map<nat, Page>, o: nat, data: Page, ok: bool, m': map<nat, Page>, lost: set<nat>)
    requires LossyStore(m, o, data, ok, m') && m'.Keys - {o} == m.Keys - {o} - lost
    ensures m' - {o} == m - {o} - lost
  {
    forall p | p in m' && p != o ensures p in m && m'[p] == m[p] {
      assert p in m' - {o};
    }
    forall p | p in m && p != o && p !in lost ensures p in m' {
      assert p in m.Keys - {o} - lost;
    }
  }

  /** A store takes from the page map exactly what it takes from the metadata. */
  lemma KeepsTheRest(e: EState, o: nat, data: Page, ok: bool, e': EState, lost: set<nat>)
    requires Tracked(e) && Tracked(e') && LossyStore(PageMap(e), o, data, ok, PageMap(e'))
    requires e'.metas.Keys - {o} == e.metas.Keys - {o} - lost
    ensures PageMap(e') - {o} == PageMap(e) - {o} - lost
  {
    hide Holds, Injective, BacksValid, PageMap, LossyStore;
    PageKeys(e);
    PageKeys(e');
    RestKept(PageMap(e), o, data, ok, PageMap(e'), lost);
  }

  // ------------------------------------------------------------ lemmas the calls rest on

  /** Backends keep their number, kind, tier and size. */
  predicate SameBackends(backs: map<nat, BState>, backs': map<nat, BState>) {
    backs'.Keys == backs.Keys && forall i | i in backs :: SameConfig(backs[i], backs'[i])
  }

  /** `e'` tracks some of what `e` tracks, each with the same metadata and page. */
  ghost predicate Shrinks(e: EState, e': EState)
    requires Tracked(e)
  {
    && Tracked(e') && SameBackends(e.backs, e'.backs)
    && (forall o | o in e'.metas :: o in e.metas && e'.metas[o] == e.metas[o])
    && Forgets(PageMap(e), PageMap(e'))
  }

  /** `e'` tracks `o` with page `data`, and of everything else some of what `e` tracks. */
  ghost predicate Adds(e: EState, o: nat, data: Page, e': EState)
    requires Tracked(e)
  {
    && Tracked(e') && o in e'.metas && PageMap(e')[o] == data
    && Shrinks(e, e'.(metas := e'.metas - {o}))
  }

  /** Both general outcomes of a store are steps of the lossy page map. */
  lemma StoreIsLossy(e: EState, o: nat, data: Page, e': EState, ok: bool)
    requires Tracked(e)
    requires if ok then Adds(e, o, data, e') else Shrinks(e, e') && o !in e'.metas
    ensures Tracked(e') && LossyStore(PageMap(e), o, data, ok, PageMap(e'))
  {
    hide Injective, BacksValid, SameBackends;
    if ok {
      assert PageMap(e') - {o} == PageMap(e'.(metas := e'.metas - {o}));
    } else {
      assert PageMap(e') - {o} == PageMap(e');
    }
  }

  lemma ShrinksReflexive(e: EState)
    requires Tracked(e)
    ensures Shrinks(e, e)
  {
  }

  /** `Shrinks` does not look at the counters. */
  lemma ShrinksUncounted(e: EState, m: EState, e': EState)
    requires Tracked(e) && Shrinks(e, m) && e'.metas == m.metas && e'.backs == m.backs
    ensures Shrinks(e, e')
  {
    hide Holds, Injective, BacksValid, SameBackends, PagesOf, Forgets;
  }

  lemma ShrinksTracked(e: EState, e': EState)
    requires Tracked(e) && Shrinks(e, e')
    ensures Tracked(e') && SameBackends(e.backs, e'.backs)
    ensures AllLocal(e.backs) <==> AllLocal(e'.backs)
    ensures forall o | o in e'.metas :: o in e.metas
  {
  }

  lemma HoldsAt(e: EState, o: nat)
    requires Holds(e.metas, e.backs) && o in e.metas
    ensures e.metas[o].backend in e.backs && e.metas[o].handle in e.backs[e.metas[o].backend].pages
  {
  }

  lemma LocalAt(backs: map<nat, BState>, i: nat)
    requires AllLocal(backs) && i in backs
    ensures backs[i].IsLocal()
  {
  }

  lemma VictimIn(metas: map<nat, Meta>, i: nat, o: nat)
    requires IsVictim(metas, i, o)
    ensures o in metas && metas[o].backend == i
  {
  }

  lemma NoVictimAnywhere(e: EState)
    requires Holds(e.metas, e.backs)
    requires forall i | i in e.backs :: NoVictim(e.metas, i)
    ensures !SomeVictim(e)
  {
    forall o | o in e.metas ensures Contains(e.metas[o].flags, PINNED) {
      assert NoVictim(e.metas, e.metas[o].backend);
    }
  }

  lemma ShrinksTransitive(e: EState, m: EState, e': EState)
    requires Tracked(e) && Shrinks(e, m) && Shrinks(m, e')
    ensures Shrinks(e, e')
  {
  }

  lemma DropKeepsTracked(e: EState, o: nat)
    requires Tracked(e)
    ensures Tracked(Drop(e, o))
  {
    if o in e.metas {
      var m := e.metas[o];
      var b := e.backs[m.backend];
      forall p | p in Drop(e, o).metas ensures PlaceOf(e.metas[p]) != PlaceOf(m) {}
    }
  }

  /** Forgetting an offset without touching any backend. */
  lemma ForgetShrinks(e: EState, o: nat)
    requires Tracked(e)
    ensures Shrinks(e, e.(metas := e.metas - {o}))
  {
  }

  /** A backend call that changes no tracked page. */
  lemma BackShrinks(e: EState, i: nat, b': BState)
    requires Tracked(e) && i in e.backs && SameConfig(e.backs[i], b') && b'.Valid()
    requires forall o | o in e.metas && e.metas[o].backend == i ::
               e.metas[o].handle in b'.pages && b'.pages[e.metas[o].handle] == e.backs[i].pages[e.metas[o].handle]
    ensures Shrinks(e, e.(backs := e.backs[i := b'])) && e.(backs := e.backs[i := b']).metas == e.metas
  {
  }

  /** Freeing the page of an offset no longer tracked, whether or not the free succeeds. */
  lemma FreeShrinks(e: EState, o: nat, b': BState, ok: bool)
    requires Tracked(e) && o in e.metas
    requires FreeRel(e.backs[e.metas[o].backend], e.metas[o].handle, b', ok) && b'.Valid()
    ensures Shrinks(e, e.(metas := e.metas - {o}, backs := e.backs[e.metas[o].backend := b']))
  {
    var m := e.metas[o];
    var e1 := e.(metas := e.metas - {o});
    ForgetShrinks(e, o);
    forall p | p in e1.metas && e1.metas[p].backend == m.backend
      ensures e1.metas[p].handle in b'.pages
      ensures b'.pages[e1.metas[p].handle] == e1.backs[m.backend].pages[e1.metas[p].handle]
    {
      assert PlaceOf(e.metas[p]) != PlaceOf(m);
    }
    BackShrinks(e1, m.backend, b');
    ShrinksTransitive(e, e1, e1.(backs := e1.backs[m.backend := b']));
  }

  /** Tracking a page that sits under a handle nobody tracks. */
  lemma TrackAdds(e: EState, i: nat, h: nat, o: nat, m: Meta)
    requires Tracked(e) && o !in e.metas && i in e.backs && h in e.backs[i].pages
    requires m.backend == i && m.handle == h && m.tier == e.backs[i].tier
    requires forall p | p in e.metas :: PlaceOf(e.metas[p]) != Placed(i, h)
    ensures Tracked(e.(metas := e.metas[o := m]))
    ensures PageMap(e.(metas := e.metas[o := m])) == PageMap(e)[o := e.backs[i].pages[h]]
  {
  }

  lemma BackValidAt(e: EState, i: nat)
    requires Tracked(e) && i in e.backs
    ensures e.backs[i].Valid()
  {
  }

  /** Nothing tracked sits under handle `h` of backend `i`. */
  predicate Untracked(e: EState, i: nat, h: nat) {
    forall p | p in e.metas :: PlaceOf(e.metas[p]) != Placed(i, h)
  }

  lemma AllocShrinks(e: EState, i: nat, b': BState, r: Result<nat>)
    requires Tracked(e) && i in e.backs && AllocRel(e.backs[i], b', r) && b'.Valid()
    ensures var e' := e.(backs := e.backs[i := b']);
            Shrinks(e, e') && e'.metas == e.metas &&
            (r.Ok? ==> r.value < b'.next && r.value !in b'.pages && Untracked(e', i, r.value))
  {
    BackShrinks(e, i, b');
  }

  lemma StoreShrinks(e: EState, i: nat, h: nat, data: Page, b': BState, ok: bool)
    requires Tracked(e) && i in e.backs && h !in e.backs[i].pages
    requires StoreRel(e.backs[i], h, data, b', ok) && b'.Valid()
    ensures var e' := e.(backs := e.backs[i := b']);
            Shrinks(e, e') && Untracked(e', i, h) && (ok ==> h in b'.pages && b'.pages[h] == data)
  {
    BackShrinks(e, i, b');
  }

  lemma UntrackedFreeShrinks(e: EState, i: nat, h: nat, b': BState, ok: bool)
    requires Tracked(e) && i in e.backs && Untracked(e, i, h) && FreeRel(e.backs[i], h, b', ok) && b'.Valid()
    ensures Shrinks(e, e.(backs := e.backs[i := b']))
  {
    forall p | p in e.metas && e.metas[p].backend == i ensures e.metas[p].handle != h {
      assert PlaceOf(e.metas[p]) != Placed(i, h);
    }
    BackShrinks(e, i, b');
  }

  lemma PlacedAdds(e: EState, e2: EState, i: nat, h: nat, o: nat, data: Page, e': EState)
    requires Tracked(e) && Shrinks(e, e2) && o !in e2.metas && i in e2.backs && Untracked(e2, i, h)
    requires h in e2.backs[i].pages && e2.backs[i].pages[h] == data
    requires e'.backs == e2.backs && o in e'.metas && e'.metas == e2.metas[o := e'.metas[o]]
    requires e'.metas[o].backend == i && e'.metas[o].handle == h && e'.metas[o].tier == e2.backs[i].tier
    ensures Tracked(e') && Adds(e, o, data, e')
  {
    hide Holds, Injective, BacksValid, Shrinks;
    ShrinksTracked(e, e2);
    TrackAdds(e2, i, h, o, e'.metas[o]);
    assert e' == e2.(metas := e2.metas[o := e'.metas[o]], stats := e'.stats);
    assert e'.metas - {o} == e2.metas;
    ShrinksUncounted(e, e2, e'.(metas := e'.metas - {o}));
  }

  predicate AllOpen(backs: map<nat, BState>, ids: seq<nat>, t: Tier) {
    forall k | 0 <= k < |ids| :: Open(backs, ids[k]) && backs[ids[k]].tier == t
  }

  /** The candidates of a tier chosen for having room are its backends with room. */
  lemma PoolOfTier(backs: map<nat, BState>, t: Tier, ids: seq<nat>)
    requires IsTier(backs, t) && Pool(backs, t) <= backs.Keys && Ranked(backs, ids, Pool(backs, t))
    ensures ids != [] && AllOpen(backs, ids, t)
  {
    var i :| Open(backs, i) && backs[i].tier == t;
    var inTier := set j | j in backs && Open(backs, j) && backs[j].tier == t;
    assert i in inTier && Pool(backs, t) == inTier;
    assert i in ids;
    forall k | 0 <= k < |ids| ensures Open(backs, ids[k]) && backs[ids[k]].tier == t {
      assert ids[k] in Pool(backs, t);
    }
  }

  lemma SameTier(backs: map<nat, BState>, backs': map<nat, BState>, i: nat)
    requires SameBackends(backs, backs') && i in backs
    ensures i in backs' && backs'[i].tier == backs[i].tier
  {
  }

  lemma AddsAfterShrinks(e: EState, m: EState, o: nat, data: Page, e': EState)
    requires Tracked(e) && Shrinks(e, m) && Adds(m, o, data, e')
    ensures Adds(e, o, data, e')
  {
    hide Holds, Injective, BacksValid, Shrinks;
    ShrinksTransitive(e, m, e'.(metas := e'.metas - {o}));
  }

  /** The first candidate of the chosen tier is the best placement. */
  lemma BestPlacement(backs: map<nat, BState>, t: Tier, ids: seq<nat>)
    requires IsTier(backs, t) && Pool(backs, t) <= backs.Keys && Ranked(backs, ids, Pool(backs, t)) && ids != []
    requires AllOpen(backs, ids, t)
    ensures IsPlacement(backs, ids[0])
  {
    forall j | Open(backs, j) && backs[j].tier == t ensures Before(backs, ids[0], j) {
      assert j in Pool(backs, t);
      var k :| 0 <= k < |ids| && ids[k] == j;
    }
  }

  /** The candidates by name: the backends of the tier with room, or all with room if it has none. */
  lemma ListedAre(backs: map<nat, BState>, t: Tier, ids: seq<nat>)
    requires Pool(backs, t) <= backs.Keys && Ranked(backs, ids, Pool(backs, t))
    ensures forall i :: i in ids <==> Open(backs, i) && (backs[i].tier == t || !OpenTier(backs, t))
  {
    hide BState.HasRoom, Before;
    var inTier := set i | i in backs && Open(backs, i) && backs[i].tier == t;
    assert inTier == {} <==> !OpenTier(backs, t) by {
      if OpenTier(backs, t) {
        var i :| Open(backs, i) && backs[i].tier == t;
        assert i in inTier;
      }
    }
  }

  lemma TierHasRoom(backs: map<nat, BState>, t: Tier)
    requires IsTier(backs, t)
    ensures SomeRoom(backs)
  {
  }

  /** A load answers with the page held, and leaves what is held alone. */
  lemma LoadIsLossy(e: EState, o: nat, b': BState, r: Result<Page>)
    requires Tracked(e) && o in e.metas && b'.Valid()
    requires LoadRel(e.backs[e.metas[o].backend], e.metas[o].handle, b', r)
    ensures var e' := e.(backs := e.backs[e.metas[o].backend := b']);
            Tracked(e') && PageMap(e') == PageMap(e) && (AllLocal(e.backs) ==> e' == e)
    ensures LossyLoad(PageMap(e), o, r) && (AllLocal(e.backs) ==> r == Ok(PageMap(e)[o]))
  {
    BackShrinks(e, e.metas[o].backend, b');
    assert AllLocal(e.backs) ==> e.backs[e.metas[o].backend := b'] == e.backs;
  }

  lemma Uncounted(e: EState, e': EState)
    requires Tracked(e) && e'.metas == e.metas && e'.backs == e.backs
    ensures Tracked(e') && PageMap(e') == PageMap(e)
  {
  }

  lemma TouchKeeps(e: EState, o: nat, now: nat)
    requires Tracked(e) && o in e.metas
    ensures var e' := e.(metas := e.metas[o := Touched(e.metas[o], now)]); Tracked(e') && PageMap(e') == PageMap(e)
  {
    var e' := e.(metas := e.metas[o := Touched(e.metas[o], now)]);
    forall p | p in e'.metas ensures p in e.metas && PlaceOf(e'.metas[p]) == PlaceOf(e.metas[p]) {}
  }

  /** The three phases of a store, put together. */
  lemma StoreIsLocal(e: EState, o: nat, data: Page, now: nat, e1: EState, e2: EState, e': EState, r: Result<Placed>,
                     victim: Option<nat>)
    requires Tracked(e) && Tracked(e1) && e1 == Drop(e, o)
    requires if SomeRoom(e1.backs) then victim.None? && e2 == e1 else LocalEvict(e1, e2, victim)
    requires if SomeRoom(e2.backs) then PutAt(e2, o, data, now, e', r) else r.Err? && e' == CountStoreError(e2)
    ensures LocalStore(e, o, data, now, e', r, victim)
  {
    hide PutAt, IsVictim, Drop;
  }
}
