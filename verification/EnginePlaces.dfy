/**
 What engine calls do to the backends of any kind: how their counts move when calls
 succeed, and which backends they never touch.
 */
module EnginePlaces {
  import opened Pages
  import opened Backends
  import opened Policy
  import opened EngineSpec

  type Backs = map<nat, BState>
  type Metas = map<nat, Meta>

  // ------------------------------------------------------------ calls that succeed

  predicate OneMore(b: BState, b': BState) {
    SameConfig(b, b') && b'.healthy && b'.used == b.used + 1
  }

  predicate OneLess(b: BState, b': BState) {
    SameConfig(b, b') && b'.healthy && b'.used == Decrement(b.used)
  }

  /** Nothing changed but backend `i`. */
  predicate OnlyBack(backs: Backs, backs': Backs, i: nat) {
    i in backs && i in backs' && backs' == backs[i := backs'[i]]
  }

  lemma OnlyOnce(backs: Backs, backs': Backs, i: nat)
    requires i in backs && i in backs' && backs' == backs[i := backs'[i]]
    ensures OnlyBack(backs, backs', i)
  {
  }

  lemma OnlyTwice(backs: Backs, backs1: Backs, backs2: Backs, i: nat)
    requires OnlyBack(backs, backs1, i) && OnlyBack(backs1, backs2, i)
    ensures OnlyBack(backs, backs2, i) && backs2 == backs[i := backs2[i]]
  {
  }

  /** The page of `o` freed: one less where it was. */
  predicate Freed(e: EState, o: nat, e': EState) {
    && o in e.metas && e'.metas == e.metas - {o}
    && OnlyBack(e.backs, e'.backs, e.metas[o].backend)
    && OneLess(e.backs[e.metas[o].backend], e'.backs[e.metas[o].backend])
  }

  /** Backend `i` took the page of `o`: one more there. */
  predicate Took(e: EState, i: nat, o: nat, e': EState) {
    && OnlyBack(e.backs, e'.backs, i) && OneMore(e.backs[i], e'.backs[i])
    && o in e'.metas && e'.metas == e.metas[o := e'.metas[o]] && e'.metas[o].backend == i
  }

  /** A handle granted is new, and a local backend with room grants the next one. */
  lemma Allocated(backs: Backs, i: nat, b': BState, r: Result<nat>)
    requires i in backs && backs[i].Valid() && AllocRel(backs[i], b', r)
    ensures r.Ok? ==> r.value < b'.next && r.value !in b'.pages
    ensures backs[i].IsLocal() && Open(backs, i) ==> r == Ok(backs[i].next) && b' == backs[i].(next := backs[i].next + 1)
  {
  }

  /** An allocation and a store that succeed make one more, on a backend of any kind. */
  lemma StoredOneMore(b: BState, b1: BState, h: nat, data: Page, b2: BState)
    requires b.Valid() && AllocRel(b, b1, Ok(h)) && StoreRel(b1, h, data, b2, true) && h !in b1.pages
    ensures OneMore(b, b2)
  {
    if b.IsLocal() {
      assert b1.pages[h := data].Keys == b1.pages.Keys + {h};
    }
  }

  lemma FreedOneLess(b: BState, h: nat, b': BState)
    requires b.Valid() && h in b.pages && FreeRel(b, h, b', true)
    ensures OneLess(b, b')
  {
    if b.IsLocal() {
      assert b.pages.Keys == (b.pages - {h}).Keys + {h};
    }
  }

  lemma FreedLocally(b: BState, h: nat, b': BState, ok: bool)
    requires b.IsLocal() && FreeRel(b, h, b', ok)
    ensures ok && b' == Without(b, h)
  {
  }

  lemma FreedWasTracked(e: EState, o: nat, e': EState)
    requires Freed(e, o, e')
    ensures o in e.metas
  {
  }

  function Taken(victim: Option<nat>): set<nat> {
    if victim.Some? then {victim.value} else {}
  }

  /**
   A store to an offset not tracked in which no backend call failed: `mid` is the state
   after a victim went, if one had to, and the page went where it should from there.
   */
  ghost predicate SmoothStore(e: EState, o: nat, mid: EState, e': EState, r: Result<Placed>, victim: Option<nat>) {
    && o !in e.metas
    && (match victim
        case None => mid.metas == e.metas && mid.backs == e.backs
        case Some(v) => !SomeRoom(e.backs) && Freed(e, v, mid))
    && (if r.Ok? then IsPlacement(mid.backs, r.value.backend) && Took(mid, r.value.backend, o, e')
        else !SomeRoom(mid.backs) && e'.metas == mid.metas && e'.backs == mid.backs)
  }

  /** Nothing moved: the same pages in the same places, and no backend's count or health changed. */
  predicate Quiet(e: EState, e': EState) {
    && e'.metas.Keys == e.metas.Keys && e'.backs.Keys == e.backs.Keys
    && (forall o | o in e.metas :: e'.metas[o].backend == e.metas[o].backend)
    && (forall i | i in e.backs :: SameConfig(e.backs[i], e'.backs[i]) && e'.backs[i].used == e.backs[i].used)
    && (forall i | i in e.backs && e.backs[i].healthy :: e'.backs[i].healthy)
  }

  /** The same offsets, with the flags they had. */
  predicate SameFlags(metas: Metas, metas': Metas) {
    metas'.Keys == metas.Keys && forall o | o in metas :: metas'[o].flags == metas[o].flags
  }

  /** A page placed where it should be is in the first tier with room, and recorded there. */
  lemma PlacedInFirstTier(e: EState, i: nat, o: nat, e': EState)
    requires IsPlacement(e.backs, i) && Took(e, i, o, e') && Tracked(e')
    ensures o in e'.metas && FirstTier(e.backs, e'.metas[o].tier)
  {
    hide Injective, BacksValid, FirstTier, IsTier;
    TierByName(e.backs, e.backs[i].tier);
  }

  lemma QuietSame(e: EState)
    ensures forall stats :: Quiet(e, e.(stats := stats))
  {
  }

  /** A load that succeeds moves nothing. */
  lemma LoadIsQuiet(e: EState, o: nat, now: nat, b': BState, r: Result<Page>, e': EState)
    requires o in e.metas && e.metas[o].backend in e.backs
    requires LoadRel(e.backs[e.metas[o].backend], e.metas[o].handle, b', r) && r.Ok?
    requires e'.metas == e.metas[o := Touched(e.metas[o], now)] && e'.backs == e.backs[e.metas[o].backend := b']
    ensures Quiet(e, e')
  {
  }

  // ------------------------------------------------------------ backends nobody calls

  /** A backend that is down and holds no tracked page. */
  predicate Abandoned(metas: Metas, backs: Backs, i: nat) {
    i in backs && !backs[i].healthy && forall o | o in metas :: metas[o].backend != i
  }

  /** Abandoned backends stay so, untouched. */
  ghost predicate Leaves(metas: Metas, backs: Backs, metas': Metas, backs': Backs) {
    forall i | Abandoned(metas, backs, i) :: Abandoned(metas', backs', i) && backs'[i] == backs[i]
  }

  ghost predicate LeavesAlone(e: EState, e': EState) {
    Leaves(e.metas, e.backs, e'.metas, e'.backs)
  }

  lemma LeavesSame(metas: Metas, backs: Backs)
    ensures Leaves(metas, backs, metas, backs)
  {
  }

  lemma LeavesTransitive(m: Metas, b: Backs, m1: Metas, b1: Backs, m2: Metas, b2: Backs)
    requires Leaves(m, b, m1, b1) && Leaves(m1, b1, m2, b2)
    ensures Leaves(m, b, m2, b2)
  {
  }

  /** A call on a backend that is not abandoned, after calls that left the abandoned ones alone. */
  lemma LeavesOne(m: Metas, b: Backs, m1: Metas, b1: Backs, i: nat, m2: Metas, b2: Backs)
    requires Leaves(m, b, m1, b1) && !Abandoned(m, b, i) && OnlyBack(b1, b2, i)
    requires forall o | o in m2 :: m2[o].backend == i || (o in m1 && m1[o].backend == m2[o].backend)
    ensures Leaves(m, b, m2, b2)
  {
  }

  /** A call on the backend of a tracked page. */
  lemma LeavesUsed(e: EState, o: nat, metas: Metas, backs: Backs)
    requires o in e.metas && OnlyBack(e.backs, backs, e.metas[o].backend)
    requires forall p | p in metas :: p in e.metas && metas[p].backend == e.metas[p].backend
    ensures Leaves(e.metas, e.backs, metas, backs)
  {
    LeavesOne(e.metas, e.backs, e.metas, e.backs, e.metas[o].backend, metas, backs);
  }

  /** Trying a backend that was open at the start. */
  lemma LeavesTried(e: EState, e1: EState, i: nat, o: nat, e2: EState)
    requires Open(e.backs, i) && Leaves(e.metas, e.backs, e1.metas, e1.backs) && OnlyBack(e1.backs, e2.backs, i)
    requires e2.metas - {o} == e1.metas && (o in e2.metas ==> e2.metas[o].backend == i)
    ensures Leaves(e.metas, e.backs, e2.metas, e2.backs)
  {
    forall p | p in e2.metas ensures e2.metas[p].backend == i || (p in e1.metas && e1.metas[p].backend == e2.metas[p].backend) {
      assert p == o || p in e2.metas - {o};
    }
    LeavesOne(e.metas, e.backs, e1.metas, e1.backs, i, e2.metas, e2.backs);
  }

  /** New flags and access times. */
  lemma LeavesRetagged(e: EState, e': EState)
    requires Quiet(e, e') && e'.backs == e.backs
    ensures LeavesAlone(e, e')
  {
  }

  /** `o` is the only page of its backend. */
  predicate Sole(metas: Metas, o: nat) {
    o in metas && forall p | p in metas && p != o :: metas[p].backend != metas[o].backend
  }

  /** A failed free of a backend's only page abandons it. */
  lemma FailedFreeAbandons(e: EState, o: nat, b': BState)
    requires Sole(e.metas, o) && e.metas[o].backend in e.backs
    requires FreeRel(e.backs[e.metas[o].backend], e.metas[o].handle, b', false)
    ensures Abandoned(e.metas - {o}, e.backs[e.metas[o].backend := b'], e.metas[o].backend)
  {
  }

  /** Once abandoned, a backend is never used again: whatever the run, nothing is stored there and it stays as it was. */
  lemma {:induction false} NeverUsedAgain(es: seq<EState>, j: nat, k: nat, i: nat)
    requires forall n | 0 <= n < |es| - 1 :: LeavesAlone(es[n], es[n + 1])
    requires j <= k < |es| && Abandoned(es[j].metas, es[j].backs, i)
    ensures Abandoned(es[k].metas, es[k].backs, i) && es[k].backs[i] == es[j].backs[i]
    decreases k
  {
    if j < k {
      NeverUsedAgain(es, j, k - 1, i);
      assert LeavesAlone(es[k - 1], es[k - 1 + 1]);
    }
  }
}
