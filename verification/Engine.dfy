/**
 The daemon engine: routes stores, loads and invalidations to its backends, and
 keeps the policy's metadata in step with what the backends hold.
 */
module Engine {
  import opened Pages
  import opened Backends
  import opened Policy
  import opened EngineSpec
  import opened EnginePlaces

  class DaemonEngine {
    const backends: map<nat, Backend>
    const policy: PolicyEngine
    var stats: Stats

    ghost function Views(): map<nat, BState>
      reads backends.Values
    {
      map i | i in backends :: backends[i].View()
    }

    ghost function View(): EState
      reads this, policy, backends.Values
    {
      EState(policy.pages, Views(), stats)
    }

    ghost predicate BackendsValid()
      reads backends.Values
    {
      forall i | i in backends :: backends[i].id == i && backends[i].Valid()
    }

    ghost predicate Valid()
      reads this, policy, backends.Values
    {
      BackendsValid() && Tracked(View())
    }

    /** A fresh engine over given backends (`with_backends`). */
    constructor (backends: map<nat, Backend>)
      requires forall i | i in backends :: backends[i].id == i && backends[i].Valid()
      ensures Valid() && this.backends == backends && fresh(policy)
      ensures policy.pages == map[] && stats == Stats(0, 0, 0, 0, 0)
    {
      this.backends := backends;
      this.policy := new PolicyEngine();
      this.stats := Stats(0, 0, 0, 0, 0);
    }

    /** What kind each backend is does not change. */
    lemma Kinds()
      ensures AllLocal(Views()) <==> forall i | i in backends :: !backends[i].kind.Tcp?
    {
      assert forall i | i in backends :: Views()[i].kind == backends[i].kind;
    }

    /** Calling one backend leaves the others, and the validity of all, as they were. */
    twostate lemma OnlyChanged(i: nat)
      requires old(BackendsValid()) && i in backends && backends[i].Valid()
      requires forall j | j in backends && j != i :: unchanged(backends[j])
      ensures BackendsValid()
      ensures Views() == old(Views())[i := backends[i].View()] && backends[i].View().Valid()
    {
    }

    // The four backend calls, seen from the engine.

    method CallFree(i: nat, h: nat) returns (ok: bool)
      requires BackendsValid() && i in backends
      modifies backends[i]
      ensures BackendsValid() && i in Views() && i in old(Views())
      ensures FreeRel(old(Views()[i]), h, Views()[i], ok)
      ensures Views()[i].Valid() && Views() == old(Views())[i := Views()[i]]
    {
      hide Backend.Valid, BState.Valid;
      ok := backends[i].FreePage(h);
      OnlyChanged(i);
    }

    method CallAlloc(i: nat) returns (r: Result<nat>)
      requires BackendsValid() && i in backends
      modifies backends[i]
      ensures BackendsValid() && i in Views() && i in old(Views())
      ensures AllocRel(old(Views()[i]), Views()[i], r)
      ensures Views()[i].Valid() && Views() == old(Views())[i := Views()[i]]
    {
      hide Backend.Valid, BState.Valid;
      r := backends[i].AllocPage();
      OnlyChanged(i);
    }

    method CallStore(i: nat, h: nat, data: Page) returns (ok: bool)
      requires BackendsValid() && i in backends && i in Views()
      requires h < Views()[i].next && h !in Views()[i].pages
      modifies backends[i]
      ensures BackendsValid() && i in Views() && i in old(Views())
      ensures StoreRel(old(Views()[i]), h, data, Views()[i], ok)
      ensures Views()[i].Valid() && Views() == old(Views())[i := Views()[i]]
    {
      hide Backend.Valid, BState.Valid;
      ok := backends[i].StorePage(h, data);
      OnlyChanged(i);
    }

    method CallLoad(i: nat, h: nat) returns (r: Result<Page>)
      requires BackendsValid() && i in backends
      modifies backends[i]
      ensures BackendsValid() && i in Views() && i in old(Views())
      ensures LoadRel(old(Views()[i]), h, Views()[i], r)
      ensures Views()[i].Valid() && Views() == old(Views())[i := Views()[i]]
    {
      hide Backend.Valid, BState.Valid;
      r := backends[i].LoadPage(h);
      OnlyChanged(i);
    }

    /** Stops tracking an offset and frees its page; a page whose free fails is forgotten all the same. */
    method RemoveAndFree(o: nat) returns (found: bool, ok: bool)
      requires Valid()
      modifies policy, backends.Values
      ensures Valid() && Shrinks(old(View()), View()) && o !in policy.pages
      ensures found <==> o in old(policy.pages)
      ensures policy.pages == old(policy.pages) - {o}
      ensures old(Uncrowded(View(), o)) ==> SomeRoom(Views())
      ensures if !found then View() == old(View()) else ok ==> Freed(old(View()), o, View())
      ensures !ok && Sole(old(policy.pages), o) ==> Abandoned(policy.pages, Views(), old(policy.pages)[o].backend)
      ensures Leaves(old(policy.pages), old(Views()), policy.pages, Views())
      ensures AllLocal(old(Views())) ==> ok && View() == Drop(old(View()), o)
    {
      hide Holds, Injective, BacksValid, Shrinks, Backend.Valid, Backend.View, BState.Valid, AllLocal, Leaves, FreeRel, Sole, Abandoned;
      ghost var e := View();
      var removed := policy.Remove(o);
      found, ok := removed.Some?, true;
      if found {
        var m := removed.value;
        HoldsAt(e, o);
        if AllLocal(e.backs) { LocalAt(e.backs, m.backend); }
        ok := CallFree(m.backend, m.handle);
        FreeShrinks(e, o, Views()[m.backend], ok);
        ShrinksTracked(e, View());
        StaysUncrowded(e, o, Views());
        BackValidAt(e, m.backend);
        if ok {
          FreedOneLess(e.backs[m.backend], m.handle, Views()[m.backend]);
        } else if Sole(e.metas, o) {
          FailedFreeAbandons(e, o, Views()[m.backend]);
        }
        LeavesUsed(e, o, policy.pages, Views());
        if AllLocal(e.backs) { FreedLocally(e.backs[m.backend], m.handle, Views()[m.backend], ok); }
      } else {
        LeavesSame(e.metas, e.backs);
        assert policy.pages == e.metas;
        StaysUncrowded(e, o, Views());
        ShrinksReflexive(e);
      }
    }

    /** Evicts the least recently used unpinned page of one backend. */
    method EvictFrom(i: nat) returns (victim: Option<nat>, ghost gone: set<nat>)
      requires Valid() && i in backends
      modifies this, policy, backends.Values
      ensures Valid() && Shrinks(old(View()), View())
      ensures policy.pages == old(policy.pages) - gone
      ensures gone == {} || exists v :: gone == {v} && IsVictim(old(policy.pages), i, v)
      ensures gone == {} ==> victim.None? && NoVictim(old(policy.pages), i) && View() == old(View())
      ensures victim.Some? ==> gone == {victim.value} && Freed(old(View()), victim.value, View())
      ensures Leaves(old(policy.pages), old(Views()), policy.pages, Views())
      ensures stats == if victim.Some? then old(stats.(invalidated := stats.invalidated + 1)) else old(stats)
      ensures AllLocal(old(Views())) ==>
                && gone == Taken(victim)
                && if victim.Some? then LocalEvict(old(View()), View(), victim)
                   else View() == old(View()) && NoVictim(policy.pages, i)
    {
      hide Holds, Injective, BacksValid, Shrinks, Drop, Backend.Valid, Backend.View, IsVictim, NoVictim, AllLocal, Leaves, Sole, Abandoned, OneLess, OnlyBack;
      ghost var e := View();
      ShrinksReflexive(e);
      victim := policy.FindEvictionCandidate(i);
      gone := {};
      LeavesSame(e.metas, e.backs);
      if victim.Some? {
        gone := {victim.value};
        VictimIn(policy.pages, i, victim.value);
        var _, ok := RemoveAndFree(victim.value);
        if ok {
          ShrinksUncounted(e, View(), CountInvalidated(View()));
          ShrinksTracked(e, CountInvalidated(View()));
          stats := stats.(invalidated := stats.invalidated + 1);
        } else {
          victim := None;
        }
      }
    }

    /** Evicts one page: backend by backend in no particular order, the first that gives one up. */
    method TryEvictOne() returns (victim: Option<nat>, ghost lost: set<nat>)
      requires Valid()
      modifies this, policy, backends.Values
      ensures Valid() && Shrinks(old(View()), View())
      ensures policy.pages == old(policy.pages) - lost && OnePerBackend(old(policy.pages), lost)
      ensures victim.Some? ==> victim.value in lost
      ensures lost == {} ==> View() == old(View())
      ensures victim.Some? && lost == {victim.value} ==> Freed(old(View()), victim.value, View())
      ensures Leaves(old(policy.pages), old(Views()), policy.pages, Views())
      ensures stats == if victim.Some? then old(stats.(invalidated := stats.invalidated + 1)) else old(stats)
      ensures AllLocal(old(Views())) ==> lost == Taken(victim) && LocalEvict(old(View()), View(), victim)
    {
      hide Holds, Injective, BacksValid, Shrinks, Backend.Valid, Backend.View, NoVictim, AllLocal, IsVictim, OnePerBackend, Leaves, Freed;
      ghost var e := View();
      ShrinksReflexive(e);
      LoseNone(e.metas);
      LeavesSame(e.metas, e.backs);
      lost := {};
      var todo := backends.Keys;
      while todo != {}
        invariant todo <= backends.Keys
        invariant Valid() && Shrinks(e, View()) && stats == e.stats
        invariant policy.pages == e.metas - lost && OnePerBackend(e.metas, lost)
        invariant forall v | v in lost :: v in e.metas && e.metas[v].backend !in todo
        invariant lost == {} ==> View() == e
        invariant Leaves(e.metas, e.backs, policy.pages, Views())
        invariant AllLocal(e.backs) ==> lost == {} && View() == e && forall i | i in backends && i !in todo :: NoVictim(e.metas, i)
        decreases todo
      {
        var i :| i in todo;
        todo := todo - {i};
        ghost var before := View();
        ghost var gone;
        victim, gone := EvictFrom(i);
        ShrinksTransitive(e, before, View());
        LoseOne(e.metas, lost, i, gone);
        LeavesTransitive(e.metas, e.backs, before.metas, before.backs, policy.pages, Views());
        assert victim.Some? && lost + gone == {victim.value} ==> lost == {} by {
          if victim.Some? { FreedWasTracked(before, victim.value, View()); }
        }
        lost := lost + gone;
        if victim.Some? {
          return;
        }
      }
      victim := None;
      if AllLocal(e.backs) {
        NoVictimAnywhere(e);
      }
    }

    /** The capacity report of one backend: whether it has room. */
    method HasRoom(i: nat) returns (open: bool)
      requires i in backends
      ensures open <==> Open(Views(), i)
    {
      var b := backends[i];
      open := (if b.kind.Tcp? then b.connected else true) && (if b.kind.Tcp? then b.pagesUsed else |b.pages|) < b.maxPages;
    }

    /** Whether some backend of the tier has room. */
    method TierOpen(t: Tier) returns (open: bool)
      ensures open <==> exists i :: Open(Views(), i) && Views()[i].tier == t
    {
      var todo := backends.Keys;
      while todo != {}
        invariant todo <= backends.Keys
        invariant forall i | Open(Views(), i) && i !in todo :: Views()[i].tier != t
        decreases todo
      {
        var i :| i in todo;
        todo := todo - {i};
        open := HasRoom(i);
        if open && backends[i].tier == t {
          assert Open(Views(), i) && Views()[i].tier == t;
          return true;
        }
      }
      open := false;
    }

    /** The best tier with room, in the fixed preference order. */
    method SelectTier() returns (t: Option<Tier>)
      ensures t.Some? ==> IsTier(Views(), t.value)
      ensures t.None? <==> !SomeRoom(Views())
      ensures t == Some(Compressed) <==> OpenTier(Views(), Compressed)
      ensures t == Some(Cxl) <==> OpenTier(Views(), Cxl) && !OpenTier(Views(), Compressed)
      ensures t == Some(Rdma) <==> OpenTier(Views(), Rdma) && !OpenTier(Views(), Compressed) && !OpenTier(Views(), Cxl)
      ensures t == Some(Gpu) <==>
                && OpenTier(Views(), Gpu) && !OpenTier(Views(), Compressed)
                && !OpenTier(Views(), Cxl) && !OpenTier(Views(), Rdma)
      ensures t == Some(Local) <==>
                && OpenTier(Views(), Local) && !OpenTier(Views(), Compressed)
                && !OpenTier(Views(), Cxl) && !OpenTier(Views(), Rdma) && !OpenTier(Views(), Gpu)
    {
      hide BState.HasRoom, Backend.View;
      var preference := [Compressed, Cxl, Rdma, Gpu, Local];
      var k := 0;
      while k < |preference|
        invariant 0 <= k <= |preference|
        invariant forall i | Open(Views(), i) :: k <= Rank(Views()[i].tier)
      {
        var open := TierOpen(preference[k]);
        assert Rank(preference[k]) == k;
        if open {
          return Some(preference[k]);
        }
        k := k + 1;
      }
      t := None;
    }

    /** Whether backend `i` is to be tried before backend `j`. */
    method GoesBefore(i: nat, j: nat) returns (before: bool)
      requires i in backends && j in backends
      ensures before <==> Before(Views(), i, j)
    {
      var bi, bj := backends[i], backends[j];
      var ui := if bi.kind.Tcp? then bi.pagesUsed else |bi.pages|;
      var uj := if bj.kind.Tcp? then bj.pagesUsed else |bj.pages|;
      before := ui * bj.maxPages < uj * bi.maxPages || (ui * bj.maxPages == uj * bi.maxPages && i <= j);
    }

    /** Inserts a backend into a ranked list. */
    method Insert(ids: seq<nat>, i: nat, ghost pool: set<nat>) returns (ids': seq<nat>)
      requires pool <= Views().Keys && Ranked(Views(), ids, pool)
      requires i in Views() && i !in pool && forall j | j in pool + {i} :: Views()[j].total > 0
      ensures Ranked(Views(), ids', pool + {i})
    {
      var k := 0;
      while k < |ids|
        invariant 0 <= k <= |ids|
        invariant forall l | 0 <= l < k :: Before(Views(), ids[l], i)
      {
        assert ids[k] in pool;
        var before := GoesBefore(ids[k], i);
        if !before { break; }
        k := k + 1;
      }
      ids' := ids[..k] + [i] + ids[k..];
      InsertRanked(Views(), ids, i, k, pool);
    }

    method MayTry(i: nat, t: Tier, exact: bool) returns (b: bool)
      requires i in backends
      ensures i in Views() && (b <==> Eligible(Views(), t, exact, i))
    {
      b := HasRoom(i);
      b := b && (exact ==> backends[i].tier == t);
    }

    /** The backends a store to tier `t` tries, least utilised first. */
    method TierBackendCandidates(t: Tier) returns (ids: seq<nat>)
      ensures Pool(Views(), t) <= Views().Keys && Ranked(Views(), ids, Pool(Views(), t))
      ensures forall i :: i in ids <==> Open(Views(), i) && (Views()[i].tier == t || !OpenTier(Views(), t))
    {
      hide Ranked, Pool, Eligible, Open, Backend.View;
      var exact := TierOpen(t);
      ghost var backs := Views();
      ids := [];
      RankedEmpty(backs);
      ghost var pool := {};
      var todo := backends.Keys;
      while todo != {}
        invariant todo <= backends.Keys && pool <= backs.Keys
        invariant forall i :: i in pool <==> i in backs && i !in todo && Eligible(backs, t, exact, i)
        invariant Ranked(backs, ids, pool)
        decreases todo
      {
        var i :| i in todo;
        var eligible := MayTry(i, t, exact);
        todo := todo - {i};
        if eligible {
          forall j | j in pool + {i} ensures backs[j].total > 0 {
            EligibleHasRoom(backs, t, exact, j);
          }
          ids := Insert(ids, i, pool);
          pool := pool + {i};
        }
      }
      PoolIs(backs, t, exact, pool);
      ListedAre(backs, t, ids);
    }

    /** Stores the page under a new handle. When the store fails the handle is given back. */
    method StoreOrFree(i: nat, h: nat, data: Page) returns (ok: bool)
      requires Valid() && i in backends && i in Views()
      requires h < Views()[i].next && h !in Views()[i].pages
      modifies backends[i]
      ensures Valid() && Shrinks(old(View()), View())
      ensures ok ==> i in Views() && h in Views()[i].pages && Views()[i].pages[h] == data && Untracked(View(), i, h)
      ensures OnlyBack(old(Views()), Views(), i)
      ensures ok ==> StoreRel(old(Views())[i], h, data, Views()[i], true)
      ensures AllLocal(old(Views())) ==> ok && Views() == old(Views())[i := Filled(old(Views())[i], h, data)]
    {
      hide Holds, Injective, BacksValid, Shrinks, Untracked, Backend.Valid, Backend.View, AllLocal, FreeRel;
      ghost var e := View();
      if AllLocal(e.backs) { LocalAt(e.backs, i); }
      ok := CallStore(i, h, data);
      ghost var e1 := View();
      StoreShrinks(e, i, h, data, Views()[i], ok);
      ShrinksTracked(e, e1);
      if !ok {
        var freed := CallFree(i, h);
        UntrackedFreeShrinks(e1, i, h, Views()[i], freed);
        ShrinksTransitive(e, e1, View());
        ShrinksTracked(e, View());
      }
    }

    /** Allocates a handle and stores the page under it. */
    method AllocAndStore(i: nat, data: Page) returns (r: Result<nat>)
      requires Valid() && i in backends
      modifies backends[i]
      ensures Valid() && Shrinks(old(View()), View())
      ensures r.Ok? ==> i in Views() && r.value in Views()[i].pages && Views()[i].pages[r.value] == data
      ensures r.Ok? ==> Untracked(View(), i, r.value)
      ensures OnlyBack(old(Views()), Views(), i)
      ensures r.Ok? ==> OneMore(old(Views())[i], Views()[i])
      ensures AllLocal(old(Views())) && Open(old(Views()), i) ==>
                var b := old(Views())[i];
                r == Ok(b.next) && Views() == old(Views())[i := Filled(b.(next := b.next + 1), b.next, data)]
    {
      hide Holds, Injective, BacksValid, Shrinks, Untracked, Backend.Valid, Backend.View, AllLocal;
      hide AllocRel, StoreRel, OneMore, Filled, Open, BState.Valid, OnlyBack;
      ghost var e := View();
      BackValidAt(e, i);
      if AllLocal(e.backs) { LocalAt(e.backs, i); }
      r := CallAlloc(i);
      ghost var e1 := View();
      Allocated(e.backs, i, Views()[i], r);
      OnlyOnce(e.backs, e1.backs, i);
      AllocShrinks(e, i, Views()[i], r);
      ShrinksTracked(e, e1);
      if r.Ok? {
        var ok := StoreOrFree(i, r.value, data);
        ShrinksTransitive(e, e1, View());
        OnlyTwice(e.backs, e1.backs, Views(), i);
        if ok {
          StoredOneMore(e.backs[i], e1.backs[i], r.value, data, Views()[i]);
        } else {
          r := Err;
        }
      }
    }

    /** Tries to place the page on one backend of the chosen tier, and records it there. */
    method TryBackend(i: nat, o: nat, data: Page, tier: Tier, now: nat) returns (r: Result<Placed>)
      requires Valid() && i in backends && o !in policy.pages && i in Views() && tier == Views()[i].tier
      modifies this, policy, backends[i]
      ensures Valid()
      ensures if r.Ok? then Adds(old(View()), o, data, View())
              else Shrinks(old(View()), View()) && o !in policy.pages
      ensures policy.pages - {o} == old(policy.pages)
      ensures stats == if r.Ok? then old(stats.(stored := stats.stored + 1)) else old(stats)
      ensures OnlyBack(old(Views()), Views(), i)
      ensures r.Ok? ==> r.value.backend == i && Took(old(View()), i, o, View())
      ensures o in policy.pages ==> policy.pages[o].backend == i
      ensures AllLocal(old(Views())) && Open(old(Views()), i) ==>
                && r == Ok(Placed(i, old(Views())[i].next))
                && View() == CountStored(Put(old(View()), i, o, data, now))
    {
      hide Holds, Injective, BacksValid, Shrinks, Adds, Untracked, Backend.Valid, Backend.View, AllLocal, Filled, Open, OneMore;
      ghost var e := View();
      var stored := AllocAndStore(i, data);
      ghost var e2 := View();
      ShrinksTracked(e, e2);
      if stored.Err? {
        return Err;
      }
      policy.RecordStore(o, stored.value, i, tier, now);
      stats := stats.(stored := stats.stored + 1);
      PlacedAdds(e, e2, i, stored.value, o, data, View());
      r := Ok(Placed(i, stored.value));
    }

    /** Tries the listed backends in order until one takes the page. `failed` says that one did not. */
    method TryEach(ids: seq<nat>, o: nat, data: Page, tier: Tier, now: nat) returns (r: Result<Placed>, ghost failed: bool)
      requires Valid() && o !in policy.pages
      requires ids != [] && AllOpen(Views(), ids, tier)
      modifies this, policy, backends.Values
      ensures Valid()
      ensures if r.Ok? then Adds(old(View()), o, data, View())
              else Shrinks(old(View()), View()) && o !in policy.pages
      ensures policy.pages - {o} == old(policy.pages)
      ensures stats == if r.Ok? then old(stats.(stored := stats.stored + 1)) else old(stats)
      ensures !failed ==> r.Ok? && r.value.backend == ids[0] && Took(old(View()), ids[0], o, View())
      ensures Leaves(old(policy.pages), old(Views()), policy.pages, Views())
      ensures AllLocal(old(Views())) ==> !failed && PutOn(old(View()), ids[0], o, data, now, View(), r)
    {
      hide Holds, Injective, BacksValid, Shrinks, Adds, Backend.Valid, Backend.View, AllLocal, Put, Took, Leaves;
      hide BState.HasRoom, OnlyBack, Filled, IsTier, Ranked;
      ghost var e := View();
      ShrinksReflexive(e);
      LeavesSame(e.metas, e.backs);
      var k := 0;
      r, failed := Err, false;
      while k < |ids|
        invariant 0 <= k <= |ids|
        invariant Valid() && Shrinks(e, View()) && policy.pages == e.metas && stats == e.stats
        invariant Leaves(e.metas, e.backs, e.metas, Views())
        invariant r.Err? && (failed <==> k > 0) && (AllLocal(e.backs) ==> k == 0) && (k == 0 ==> View() == e)
      {
        ghost var before := View();
        ShrinksTracked(e, before);
        SameTier(e.backs, before.backs, ids[k]);
        r := TryBackend(ids[k], o, data, tier, now);
        LeavesTried(e, before, ids[k], o, View());
        if r.Ok? {
          AddsAfterShrinks(e, before, o, data, View());
          return;
        }
        ShrinksTransitive(e, before, View());
        assert policy.pages - {o} == policy.pages;
        failed := true;
        k := k + 1;
      }
      assert policy.pages - {o} == policy.pages;
    }

    /** Tries the backends of the chosen tier, least utilised first. */
    method PlacePage(o: nat, data: Page, tier: Tier, now: nat) returns (r: Result<Placed>, ghost failed: bool)
      requires Valid() && o !in policy.pages && IsTier(Views(), tier)
      modifies this, policy, backends.Values
      ensures Valid()
      ensures if r.Ok? then Adds(old(View()), o, data, View())
              else Shrinks(old(View()), View()) && o !in policy.pages
      ensures policy.pages - {o} == old(policy.pages)
      ensures stats == if r.Ok? then old(stats.(stored := stats.stored + 1)) else old(stats.(storeErrors := stats.storeErrors + 1))
      ensures !failed ==> r.Ok? && IsPlacement(old(Views()), r.value.backend) && Took(old(View()), r.value.backend, o, View())
      ensures Leaves(old(policy.pages), old(Views()), policy.pages, Views())
      ensures AllLocal(old(Views())) ==> !failed && PutAt(old(View()), o, data, now, View(), r)
    {
      hide Holds, Injective, BacksValid, Shrinks, Adds, Backend.Valid, Backend.View, AllLocal, Put, IsPlacement, IsTier, Ranked;
      hide Took, Leaves;
      ghost var e := View();
      var ids := TierBackendCandidates(tier);
      PoolOfTier(Views(), tier, ids);
      BestPlacement(Views(), tier, ids);
      r, failed := TryEach(ids, o, data, tier, now);
      if r.Err? {
        ShrinksTracked(e, View());
        ShrinksUncounted(e, View(), CountStoreError(View()));
        ShrinksTracked(e, CountStoreError(View()));
        stats := stats.(storeErrors := stats.storeErrors + 1);
      }
    }

    /** Chooses a tier to store to, evicting one page if every backend is full. */
    method MakeRoom() returns (tier: Option<Tier>, victim: Option<nat>, ghost lost: set<nat>)
      requires Valid()
      modifies this, policy, backends.Values
      ensures Valid() && Shrinks(old(View()), View())
      ensures policy.pages == old(policy.pages) - lost && OnePerBackend(old(policy.pages), lost)
      ensures old(SomeRoom(Views())) ==> lost == {} && victim.None?
      ensures lost == {} ==> View() == old(View())
      ensures victim.Some? && lost == {victim.value} ==> Freed(old(View()), victim.value, View())
      ensures Leaves(old(policy.pages), old(Views()), policy.pages, Views())
      ensures tier.None? && lost == Taken(victim) ==> !SomeRoom(Views())
      ensures tier.Some? ==> IsTier(Views(), tier.value) && SomeRoom(Views())
      ensures stats == if victim.Some? then old(stats.(invalidated := stats.invalidated + 1)) else old(stats)
      ensures AllLocal(old(Views())) ==>
                && lost == Taken(victim)
                && if old(SomeRoom(Views())) then victim.None? && View() == old(View())
                   else LocalEvict(old(View()), View(), victim)
    {
      hide Holds, Injective, BacksValid, Shrinks, Backend.Valid, Backend.View, AllLocal, IsTier, Open, IsVictim, Leaves, Freed;
      ShrinksReflexive(View());
      LeavesSame(policy.pages, Views());
      victim, lost := None, {};
      assert policy.pages - {} == policy.pages;
      tier := SelectTier();
      if tier.Some? {
        TierHasRoom(Views(), tier.value);
      }
      if tier.None? {
        victim, lost := TryEvictOne();
        if victim.Some? {
          tier := SelectTier();
        }
      }
      if tier.Some? {
        TierHasRoom(Views(), tier.value);
      }
    }

    /** Places the page if a tier was found for it. */
    method PlaceOrFail(o: nat, data: Page, tier: Option<Tier>, now: nat) returns (r: Result<Placed>, ghost failed: bool)
      requires Valid() && o !in policy.pages && (tier.Some? ==> IsTier(Views(), tier.value))
      modifies this, policy, backends.Values
      ensures Valid()
      ensures if r.Ok? then Adds(old(View()), o, data, View())
              else Shrinks(old(View()), View()) && o !in policy.pages
      ensures stats == if r.Ok? then old(stats.(stored := stats.stored + 1)) else old(stats.(storeErrors := stats.storeErrors + 1))
      ensures policy.pages - {o} == old(policy.pages)
      ensures !failed && tier.Some? ==>
                r.Ok? && IsPlacement(old(Views()), r.value.backend) && Took(old(View()), r.value.backend, o, View())
      ensures Leaves(old(policy.pages), old(Views()), policy.pages, Views())
      ensures AllLocal(old(Views())) ==> !failed
      ensures AllLocal(old(Views())) && tier.Some? ==> PutAt(old(View()), o, data, now, View(), r)
      ensures tier.None? ==> r.Err? && View() == CountStoreError(old(View()))
    {
      hide Holds, Injective, BacksValid, Shrinks, Adds, Backend.Valid, Backend.View, AllLocal, PutAt, IsTier;
      hide IsPlacement, Took, Leaves;
      if tier.Some? {
        r, failed := PlacePage(o, data, tier.value, now);
      } else {
        ghost var e := View();
        LeavesSame(e.metas, e.backs);
        ShrinksReflexive(e);
        ShrinksUncounted(e, e, CountStoreError(e));
        ShrinksTracked(e, CountStoreError(e));
        stats := stats.(storeErrors := stats.storeErrors + 1);
        r, failed := Err, false;
        assert policy.pages - {o} == policy.pages;
      }
    }

    /**
     Stores a page: frees the old copy, makes room, and places the new one. Besides the old
     copy it costs the pages in `lost`: none if a backend has room, and otherwise at most
     the least recently used one of each backend. `mid` is the engine before the new copy is
     placed, and `failed` says that some call on a backend failed.
     */
    method StorePage(o: nat, data: Page, now: nat)
      returns (r: Result<Placed>, ghost victim: Option<nat>, ghost lost: set<nat>, ghost mid: EState, ghost failed: bool)
      requires Valid()
      modifies this, policy, backends.Values
      ensures Valid()
      ensures LossyStore(old(PageMap(View())), o, data, r.Ok?, PageMap(View()))
      ensures PageMap(View()) - {o} == old(PageMap(View())) - {o} - lost
      ensures OnePerBackend(old(policy.pages) - {o}, lost)
      ensures old(Uncrowded(View(), o)) ==> lost == {}
      ensures !failed && o !in old(policy.pages) ==> SmoothStore(old(View()), o, mid, View(), r, victim)
      ensures !failed && r.Ok? ==> o in policy.pages && FirstTier(mid.backs, policy.pages[o].tier)
      ensures policy.pages - {o} == old(policy.pages) - {o} - lost
      ensures Leaves(old(policy.pages), old(Views()), policy.pages, Views())
      ensures AllLocal(old(Views())) ==> !failed
      ensures AllLocal(old(Views())) ==> LocalStore(old(View()), o, data, now, View(), r, victim)
      ensures stats == old(stats).(stored := old(stats.stored) + (if r.Ok? then 1 else 0),
                                   storeErrors := old(stats.storeErrors) + (if r.Ok? then 0 else 1),
                                   invalidated := old(stats.invalidated) + (if victim.Some? then 1 else 0))
    {
      hide Holds, Injective, BacksValid, Shrinks, Adds, Backend.Valid, Backend.View, AllLocal, Put, PutAt, IsTier;
      hide LossyStore, Drop, SomeRoom, PageMap, LocalStore, OnePerBackend, Uncrowded;
      hide IsPlacement, Took, Freed, Leaves, LocalEvict;
      ghost var e := View();
      var _, ok := RemoveAndFree(o);
      ghost var e1 := View();
      ShrinksTracked(e, e1);
      var tier, evicted;
      tier, evicted, lost := MakeRoom();
      victim := evicted;
      ghost var e2 := View();
      ShrinksTracked(e1, e2);
      ShrinksTransitive(e, e1, e2);
      mid := e2;
      ghost var refused;
      r, refused := PlaceOrFail(o, data, tier, now);
      failed := !ok || refused || lost != Taken(victim);
      LeavesTransitive(e.metas, e.backs, e1.metas, e1.backs, e2.metas, e2.backs);
      LeavesTransitive(e.metas, e.backs, e2.metas, e2.backs, policy.pages, Views());
      if r.Ok? {
        AddsAfterShrinks(e, e2, o, data, View());
      } else {
        ShrinksTransitive(e, e2, View());
      }
      StoreIsLossy(e, o, data, View(), r.Ok?);
      assert policy.pages.Keys - {o} == (policy.pages - {o}).Keys == e.metas.Keys - {o} - lost;
      KeepsTheRest(e, o, data, r.Ok?, View(), lost);
      if AllLocal(e.backs) {
        StoreIsLocal(e, o, data, now, e1, e2, View(), r, victim);
      }
      if !failed && r.Ok? {
        PlacedInFirstTier(e2, r.value.backend, o, View());
      }
    }

    /** Loads a page from the backend that has it; a success counts as an access. */
    method LoadPage(o: nat, now: nat) returns (r: Result<Page>)
      requires Valid()
      modifies this, policy, backends.Values
      ensures Valid()
      ensures LossyLoad(old(PageMap(View())), o, r) && PageMap(View()) == old(PageMap(View()))
      ensures Leaves(old(policy.pages), old(Views()), policy.pages, Views())
      ensures r.Ok? || o !in old(policy.pages) ==> Quiet(old(View()), View())
      ensures SameFlags(old(policy.pages), policy.pages)
      ensures r.Err? ==> policy.pages == old(policy.pages)
      ensures r.Ok? ==> o in old(policy.pages) && policy.pages == old(policy.pages)[o := Touched(old(policy.pages)[o], now)]
      ensures AllLocal(old(Views())) ==> LocalLoad(old(View()), o, now, View(), r)
      ensures stats == old(stats).(loaded := old(stats.loaded) + (if r.Ok? then 1 else 0),
                                   loadErrors := old(stats.loadErrors) + (if r.Ok? then 0 else 1))
    {
      hide Holds, Injective, BacksValid, Shrinks, Backend.Valid, Backend.View, AllLocal, PageMap, LoadRel, Leaves, Quiet;
      ghost var e := View();
      LeavesSame(e.metas, e.backs);
      QuietSame(e);
      if o !in policy.pages {
        Uncounted(e, CountLoadError(e));
        stats := stats.(loadErrors := stats.loadErrors + 1);
        return Err;
      }
      var m := policy.pages[o];
      HoldsAt(e, o);
      r := CallLoad(m.backend, m.handle);
      LoadIsLossy(e, o, Views()[m.backend], r);
      LeavesUsed(e, o, e.metas, Views());
      if r.Err? {
        Uncounted(View(), CountLoadError(View()));
        stats := stats.(loadErrors := stats.loadErrors + 1);
        return;
      }
      TouchKeeps(View(), o, now);
      LeavesUsed(e, o, e.metas[o := Touched(m, now)], Views());
      BackValidAt(e, m.backend);
      LoadIsQuiet(e, o, now, Views()[m.backend], r, CountLoaded(View().(metas := e.metas[o := Touched(m, now)])));
      policy.RecordLoad(o, now);
      Uncounted(View(), CountLoaded(View()));
      stats := stats.(loaded := stats.loaded + 1);
    }

    /** Removes a page from tracking and from its backend. */
    method InvalidatePage(o: nat) returns (ok: bool)
      requires Valid()
      modifies this, policy, backends.Values
      ensures Valid() && Shrinks(old(View()), View()) && o !in policy.pages
      ensures policy.pages == old(policy.pages) - {o}
      ensures Leaves(old(policy.pages), old(Views()), policy.pages, Views())
      ensures !ok && Sole(old(policy.pages), o) ==> Abandoned(policy.pages, Views(), old(policy.pages)[o].backend)
      ensures AllLocal(old(Views())) ==> LocalInvalidate(old(View()), o, View(), ok)
      ensures stats == old(stats).(invalidated := old(stats.invalidated) + (if ok && o in old(policy.pages) then 1 else 0))
    {
      hide Holds, Injective, BacksValid, Shrinks, Backend.Valid, Backend.View, AllLocal, Leaves, Freed, Abandoned;
      ghost var e := View();
      var found;
      found, ok := RemoveAndFree(o);
      if found && ok {
        ShrinksUncounted(e, View(), CountInvalidated(View()));
        ShrinksTracked(e, CountInvalidated(View()));
        stats := stats.(invalidated := stats.invalidated + 1);
      }
    }
  }
}
