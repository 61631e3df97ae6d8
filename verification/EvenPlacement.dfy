/**
 Fair placement over backends of any kind: while no call on a backend fails, an engine
 fills the backends of a tier in proportion to their sizes.
 */
module EvenPlacement {
  import opened Pages
  import opened Backends
  import opened EngineSpec
  import opened EnginePlaces
  import opened LocalRuns

  /** No backend is more than one page ahead, in proportion, of another of its tier. */
  predicate Even(backs: map<nat, BState>) {
    forall i, j | i in backs && j in backs && backs[i].tier == backs[j].tier ::
      (backs[i].used - 1) * backs[j].total <= backs[j].used * backs[i].total
  }

  /** One more page on the least utilised open backend keeps the filling even. */
  lemma FillStaysEven(backs: map<nat, BState>, i: nat, b': BState)
    requires Even(backs) && IsPlacement(backs, i)
    requires forall j | j in backs :: backs[j].healthy && backs[j].used <= backs[j].total
    requires SameConfig(backs[i], b') && b'.used == backs[i].used + 1
    ensures Even(backs[i := b'])
  {
    var backs' := backs[i := b'];
    forall j, k | j in backs' && k in backs' && backs'[j].tier == backs'[k].tier
      ensures (backs'[j].used - 1) * backs'[k].total <= backs'[k].used * backs'[j].total
    {
      if j == i && k != i {
        if Open(backs, k) {
          assert Before(backs, i, k);
        } else {
          Fractions.MulMonotone(backs[i].used, backs[i].total, backs[k].total);
          Commute(backs[i].total, backs[k].total);
        }
      } else if k == i && j != i {
        assert (backs[j].used - 1) * backs[i].total <= backs[i].used * backs[j].total;
        Fractions.MulMonotone(backs[i].used, b'.used, backs[j].total);
      } else if j == i && k == i {
        Fractions.MulMonotone(b'.used - 1, b'.used, b'.total);
      }
    }
  }

  lemma Commute(x: int, y: int)
    ensures x * y == y * x
  {
  }

  lemma SameUse(backs: map<nat, BState>, i: nat, b': BState)
    requires Even(backs) && i in backs && SameConfig(backs[i], b') && b'.used == backs[i].used
    ensures Even(backs[i := b'])
  {
  }

  /** All backends up, each counting exactly the pages tracked in it, and all filled evenly. */
  predicate Settled(e: EState) {
    && (forall o | o in e.metas :: e.metas[o].backend in e.backs)
    && (forall i | i in e.backs :: e.backs[i].healthy)
    && Counted(e.metas, e.backs) && Even(e.backs)
  }

  /** An engine that tracks nothing over backends that hold nothing. */
  lemma FreshSettled(e: EState)
    requires e.metas == map[] && forall i | i in e.backs :: e.backs[i].healthy && e.backs[i].used == 0
    ensures Settled(e)
  {
    forall i | i in e.backs ensures |TrackedIn(e.metas, i)| == 0 {
      assert TrackedIn(e.metas, i) == {};
    }
  }

  lemma TakeSettles(e: EState, i: nat, o: nat, e': EState)
    requires Settled(e) && o !in e.metas && IsPlacement(e.backs, i) && Took(e, i, o, e')
    ensures Settled(e')
  {
    hide Counted, Even;
    assert forall j | j in e.backs :: e.backs[j].used <= e.backs[j].total by { CountedFits(e); }
    FillStaysEven(e.backs, i, e'.backs[i]);
    PutCounts(e.metas, e.backs, o, e'.metas[o], e'.backs[i]);
  }

  lemma CountedFits(e: EState)
    requires Counted(e.metas, e.backs)
    ensures forall j | j in e.backs :: e.backs[j].used <= e.backs[j].total
  {
  }

  /** A tracked page is counted where it is. */
  lemma TrackedCounts(e: EState, o: nat)
    requires Settled(e) && o in e.metas
    ensures 0 < e.backs[e.metas[o].backend].used <= e.backs[e.metas[o].backend].total
  {
    assert o in TrackedIn(e.metas, e.metas[o].backend);
  }

  /** When everything is full and one page goes, its backend is the only open one. */
  lemma EvictThenTake(e: EState, v: nat, mid: EState, i: nat, o: nat, e': EState)
    requires Settled(e) && !SomeRoom(e.backs) && Freed(e, v, mid)
    requires o !in e.metas && IsPlacement(mid.backs, i) && Took(mid, i, o, e')
    ensures Settled(e')
  {
    hide Counted, Even;
    TrackedCounts(e, v);
    var b := e.metas[v].backend;
    assert Open(mid.backs, i) && !Open(e.backs, i);
    assert e'.backs == e.backs[i := e'.backs[i]];
    SameUse(e.backs, i, e'.backs[i]);
    DropCounts(e.metas, e.backs, v, mid.backs[b]);
    PutCounts(mid.metas, mid.backs, o, e'.metas[o], e'.backs[i]);
  }

  /** With room where a page was, a store that fails no call does not fail. */
  lemma RoomAfterEviction(e: EState, v: nat, mid: EState)
    requires Settled(e) && Freed(e, v, mid)
    ensures SomeRoom(mid.backs)
  {
    TrackedCounts(e, v);
    assert Open(mid.backs, e.metas[v].backend);
  }

  /** A store to a fresh offset in which no call fails keeps the filling even. */
  lemma StoreStaysEven(e: EState, o: nat, mid: EState, e': EState, r: Result<Placed>, victim: Option<nat>)
    requires Settled(e) && SmoothStore(e, o, mid, e', r, victim)
    ensures Settled(e') && (r.Err? ==> victim.None?)
  {
    hide Settled, Freed, Took, IsPlacement, SomeRoom;
    match victim
    case None =>
      if r.Ok? {
        SameSettled(e, mid);
        TakeSettles(mid, r.value.backend, o, e');
      } else {
        SameSettled(e, e');
      }
    case Some(v) =>
      if r.Ok? {
        EvictThenTake(e, v, mid, r.value.backend, o, e');
      } else {
        RoomAfterEviction(e, v, mid);
      }
  }

  lemma SameSettled(e: EState, e': EState)
    requires Settled(e) && e'.metas == e.metas && e'.backs == e.backs
    ensures Settled(e')
  {
  }

  lemma QuietSettles(e: EState, e': EState)
    requires Settled(e) && Quiet(e, e')
    ensures Settled(e')
  {
    hide Even;
    forall i | i in e.backs ensures |TrackedIn(e'.metas, i)| == e'.backs[i].used <= e'.backs[i].total {
      assert TrackedIn(e'.metas, i) == TrackedIn(e.metas, i);
    }
    QuietEven(e.backs, e'.backs);
  }

  lemma QuietEven(backs: map<nat, BState>, backs': map<nat, BState>)
    requires Even(backs) && backs'.Keys == backs.Keys
    requires forall i | i in backs :: SameConfig(backs[i], backs'[i]) && backs'[i].used == backs[i].used
    ensures Even(backs')
  {
  }

  /** One call that failed no backend call: a store to an offset not tracked, or one that moves nothing. */
  ghost predicate SmoothStep(e: EState, e': EState) {
    Quiet(e, e') || exists o, mid, r, victim :: SmoothStore(e, o, mid, e', r, victim)
  }

  /** Over every run without failures, from an engine filled evenly, it stays so. */
  lemma {:induction false} RunStaysEven(es: seq<EState>)
    requires es != [] && Settled(es[0])
    requires forall k | 0 <= k < |es| - 1 :: SmoothStep(es[k], es[k + 1])
    ensures Settled(es[|es| - 1])
    decreases |es|
  {
    hide Settled, SmoothStore, Quiet;
    if |es| > 1 {
      var n := |es| - 2;
      RunStaysEven(es[..n + 1]);
      assert es[..n + 1][n] == es[n];
      assert SmoothStep(es[n], es[n + 1]);
      if Quiet(es[n], es[n + 1]) {
        QuietSettles(es[n], es[n + 1]);
      } else {
        var o, mid, r, victim :| SmoothStore(es[n], o, mid, es[n + 1], r, victim);
        StoreStaysEven(es[n], o, mid, es[n + 1], r, victim);
      }
    }
  }
}
