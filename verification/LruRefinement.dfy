/**
 An engine with one local backend and no pinned page is the textbook LRU list: the
 hash map with timestamps, read in order of last access, goes through exactly the
 states of `LruList`. So adding memory never loses a page.
 */
module LruRefinement {
  import opened Pages
  import opened Backends
  import opened Policy
  import opened EngineSpec
  import opened LocalRuns
  import opened LruList

  /** One local backend of capacity `k`, nothing pinned. */
  predicate Single(e: EState, b: nat, k: nat) {
    && Conserved(e) && e.backs.Keys == {b} && e.backs[b].total == k
    && forall o | o in e.metas :: !Contains(e.metas[o].flags, PINNED)
  }

  /** `l` lists tracked offsets, later accesses first. */
  predicate Ordered(metas: map<nat, Meta>, l: seq<nat>) {
    && (forall i | 0 <= i < |l| :: l[i] in metas)
    && forall i, j | 0 <= i < j < |l| :: metas[l[i]].lastAccess > metas[l[j]].lastAccess
  }

  /** `l` is the recency order of exactly the tracked offsets. */
  predicate Recency(metas: map<nat, Meta>, l: seq<nat>) {
    Ordered(metas, l) && forall o | o in metas :: o in l
  }

  predicate AllBefore(metas: map<nat, Meta>, now: nat) {
    forall o | o in metas :: metas[o].lastAccess < now
  }

  // ------------------------------------------------------------ recency lists

  lemma OrderedDistinct(metas: map<nat, Meta>, l: seq<nat>)
    requires Ordered(metas, l)
    ensures Distinct(l)
  {
  }

  lemma {:induction false} RemoveOrdered(metas: map<nat, Meta>, l: seq<nat>, o: nat)
    requires Ordered(metas, l)
    ensures Ordered(metas, Remove(l, o))
  {
    if l != [] {
      hide Ordered;
      OrderedTail(metas, l);
      RemoveOrdered(metas, l[1..], o);
      OrderedPush(metas, l[0], Remove(l[1..], o));
    }
  }

  lemma OrderedTail(metas: map<nat, Meta>, l: seq<nat>)
    requires Ordered(metas, l) && l != []
    ensures Ordered(metas, l[1..]) && l[0] in metas
    ensures forall x | x in l[1..] :: x in metas && metas[x].lastAccess < metas[l[0]].lastAccess
  {
  }

  lemma OrderedPush(metas: map<nat, Meta>, x: nat, l: seq<nat>)
    requires Ordered(metas, l) && x in metas
    requires forall y | y in l :: y in metas && metas[y].lastAccess < metas[x].lastAccess
    ensures Ordered(metas, [x] + l)
  {
  }

  lemma RecencyRemove(metas: map<nat, Meta>, l: seq<nat>, o: nat)
    requires Recency(metas, l)
    ensures Recency(metas - {o}, Remove(l, o))
  {
    RemoveOrdered(metas, l, o);
    var r := Remove(l, o);
    forall i | 0 <= i < |r| ensures r[i] in metas - {o} {
      assert r[i] in r;
    }
  }

  lemma RecencyPush(metas: map<nat, Meta>, l: seq<nat>, o: nat, m: Meta)
    requires Recency(metas, l) && o !in metas && AllBefore(metas, m.lastAccess)
    ensures Recency(metas[o := m], [o] + l)
  {
    var l' := [o] + l;
    forall i | 0 <= i < |l'| ensures l'[i] in metas[o := m] {}
    forall p | p in metas[o := m] ensures p in l' {}
  }

  lemma RecencyDropLast(metas: map<nat, Meta>, l: seq<nat>)
    requires Recency(metas, l) && l != []
    ensures Recency(metas - {l[|l| - 1]}, DropLast(l))
  {
    var v, d := l[|l| - 1], DropLast(l);
    OrderedDistinct(metas, l);
    assert Ordered(metas - {v}, d) by {
      forall i | 0 <= i < |d| ensures d[i] == l[i] && d[i] in metas - {v} {}
    }
    hide Ordered;
    forall p | p in metas - {v} ensures p in d {
      var i :| 0 <= i < |l| && l[i] == p;
      assert d[i] == p;
    }
  }

  lemma {:induction false} ListSize(l: seq<nat>, s: set<nat>)
    requires Distinct(l) && forall x :: x in l <==> x in s
    ensures |l| == |s|
    decreases |l|
  {
    if l == [] {
      assert s == {};
    } else {
      TailDistinct(l);
      forall x ensures x in l[1..] <==> x in s - {l[0]} {
        assert x in l <==> x == l[0] || x in l[1..];
      }
      ListSize(l[1..], s - {l[0]});
    }
  }

  lemma RecencySize(metas: map<nat, Meta>, l: seq<nat>)
    requires Recency(metas, l)
    ensures |l| == |metas|
  {
    OrderedDistinct(metas, l);
    forall x ensures x in l <==> x in metas.Keys {}
    ListSize(l, metas.Keys);
  }

  // ------------------------------------------------------------ the engine's side

  /** The backend's count is the number of tracked offsets. */
  lemma SingleUsed(e: EState, b: nat, k: nat)
    requires Single(e, b, k)
    ensures e.backs[b].used == |e.metas| <= k
    ensures SomeRoom(e.backs) <==> |e.metas| < k
    ensures SomeVictim(e) <==> e.metas != map[]
  {
    ConservedTracked(e);
    ConservedFits(e);
    hide Injective, BacksValid, BState.Valid;
    assert TrackedIn(e.metas, b) == e.metas.Keys;
    assert SomeRoom(e.backs) <==> Open(e.backs, b);
    if e.metas != map[] {
      var o :| o in e.metas;
    }
  }

  /** The victim is the last of the recency list. */
  lemma VictimIsLast(e: EState, b: nat, k: nat, l: seq<nat>, v: nat)
    requires Single(e, b, k) && Recency(e.metas, l)
    requires v in e.metas && IsVictim(e.metas, e.metas[v].backend, v)
    ensures l != [] && v == l[|l| - 1]
  {
    ConservedTracked(e);
    hide Injective, BacksValid, BState.Valid;
    var i :| 0 <= i < |l| && l[i] == v;
    var last := l[|l| - 1];
    assert last in e.metas && e.metas[last].backend == b && e.metas[v].backend == b;
    assert AtMost(e.metas[v], e.metas[last]);
  }

  /** No store or eviction changes which backends there are or pins anything. */
  lemma StoreStaysSingle(e: EState, b: nat, k: nat, o: nat, data: Page, now: nat, e': EState, r: Result<Placed>,
                         victim: Option<nat>)
    requires Single(e, b, k) && LocalStore(e, o, data, now, e', r, victim)
    ensures Single(e', b, k)
    ensures r.Ok? ==>
              && o in e'.metas && e'.metas[o].lastAccess == now
              && e'.metas == (e.metas - {o} - (if victim.Some? then {victim.value} else {}))[o := e'.metas[o]]
  {
    hide Conserved, LocalStore, IsVictim, SomeRoom, SomeVictim, Drop, Cleared;
    StoreConserves(e, o, data, now, e', r, victim);
    var e2 := StoreTakenApart(e, o, data, now, e', r, victim);
    if r.Ok? {
      ClearedMetas(e, o, e2, victim);
      ClearedBacks(e, o, e2, victim);
      PutShape(e2, b, k, r.value.backend, o, data, now);
    }
  }

  lemma ClearedMetas(e: EState, o: nat, e2: EState, victim: Option<nat>)
    requires Conserved(e) && Cleared(e, o, e2, victim)
    ensures e2.metas == e.metas - {o} - (if victim.Some? then {victim.value} else {})
  {
    hide Conserved;
  }

  lemma ClearedBacks(e: EState, o: nat, e2: EState, victim: Option<nat>)
    requires Conserved(e) && (victim.Some? ==> victim.value in e.metas)
    requires e2 == if victim.Some? then CountInvalidated(Drop(e, victim.value)) else Drop(e, o)
    ensures SameBackends(e.backs, e2.backs)
  {
    hide Injective, BacksValid, BState.Valid;
    ConservedTracked(e);
  }

  lemma PutShape(e: EState, b: nat, k: nat, i: nat, o: nat, data: Page, now: nat)
    requires e.backs.Keys == {b} && e.backs[b].total == k && IsPlacement(e.backs, i)
    ensures var e' := Put(e, i, o, data, now);
            && e'.backs.Keys == {b} && e'.backs[b].total == k
            && o in e'.metas && e'.metas[o].lastAccess == now && e'.metas[o].flags == 0
            && e'.metas == e.metas[o := e'.metas[o]]
  {
  }

  /** The list's side of a successful store. */
  lemma StoreList(metas: map<nat, Meta>, l: seq<nat>, k: nat, o: nat, m: Meta, victim: Option<nat>)
    requires Recency(metas, l) && AllBefore(metas, m.lastAccess) && |metas| <= k
    requires if victim.Some? then o !in metas && |metas| == k && l != [] && victim.value == l[|l| - 1]
             else k > 0 && (o in metas || |metas| < k)
    ensures Recency((metas - {o} - (if victim.Some? then {victim.value} else {}))[o := m], Next(l, k, Store(o)))
  {
    hide Recency;
    RecencySize(metas, l);
    if o !in metas {
      assert metas - {o} == metas;
      RecencyAbsent(metas, l, o);
    } else {
      RemoveKeySize(metas, o);
    }
    RecencyRemove(metas, l, o);
    RecencySize(metas - {o}, Remove(l, o));
    if victim.Some? {
      RecencyDropLast(metas, l);
      RecencyPush(metas - {victim.value}, DropLast(l), o, m);
    } else {
      assert metas - {o} - {} == metas - {o};
      RecencyPush(metas - {o}, Remove(l, o), o, m);
    }
  }

  /** Stores refine the list's stores. */
  lemma StoreRefines(e: EState, b: nat, k: nat, l: seq<nat>, o: nat, data: Page, now: nat, e': EState,
                     r: Result<Placed>, victim: Option<nat>)
    requires Single(e, b, k) && Recency(e.metas, l) && AllBefore(e.metas, now)
    requires LocalStore(e, o, data, now, e', r, victim)
    ensures Single(e', b, k) && Recency(e'.metas, Next(l, k, Store(o)))
    ensures r.Ok? <==> k > 0
  {
    hide Conserved, LocalStore, IsVictim, SomeRoom, SomeVictim, Drop, Cleared, PutAt, Recency, Single, AllBefore;
    SingleConserved(e, b, k);
    var _ := StoreTakenApart(e, o, data, now, e', r, victim);
    StoreStaysSingle(e, b, k, o, data, now, e', r, victim);
    SingleUsed(e, b, k);
    RecencySize(e.metas, l);
    if r.Err? {
      assert e.metas == map[] && l == [];
    } else {
      if victim.Some? {
        VictimIsLast(e, b, k, l, victim.value);
      } else if o in e.metas {
        RemoveKeySize(e.metas, o);
      }
      StoreList(e.metas, l, k, o, e'.metas[o], victim);
    }
  }

  lemma SingleConserved(e: EState, b: nat, k: nat)
    requires Single(e, b, k)
    ensures Conserved(e)
  {
  }

  lemma RemoveKeySize(metas: map<nat, Meta>, o: nat)
    requires o in metas
    ensures |metas - {o}| == |metas| - 1
  {
    assert metas.Keys == (metas - {o}).Keys + {o};
  }

  lemma RecencyAbsent(metas: map<nat, Meta>, l: seq<nat>, o: nat)
    requires Recency(metas, l) && o !in metas
    ensures Remove(l, o) == l
  {
    RemoveAbsent(l, o);
  }

  /** Loads refine the list's loads: a hit moves to the front, a miss changes nothing. */
  lemma LoadRefines(e: EState, b: nat, k: nat, l: seq<nat>, o: nat, now: nat, e': EState, r: Result<Page>)
    requires Single(e, b, k) && Recency(e.metas, l) && AllBefore(e.metas, now)
    requires Tracked(e) && LocalLoad(e, o, now, e', r)
    ensures Single(e', b, k) && Recency(e'.metas, Next(l, k, Load(o)))
    ensures r.Ok? <==> o in l
  {
    hide Single, Recency, Injective, BacksValid, Holds;
    InRecency(e.metas, l, o);
    if o in e.metas {
      TouchStaysSingle(e, b, k, o, now, e');
      RecencyRemove(e.metas, l, o);
      RecencyPush(e.metas - {o}, Remove(l, o), o, e'.metas[o]);
      assert (e.metas - {o})[o := e'.metas[o]] == e'.metas;
    } else {
      CountStaysSingle(e, b, k, e');
    }
  }

  lemma TouchStaysSingle(e: EState, b: nat, k: nat, o: nat, now: nat, e': EState)
    requires Single(e, b, k) && o in e.metas && e'.backs == e.backs
    requires e'.metas == e.metas[o := Touched(e.metas[o], now)]
    ensures Single(e', b, k)
  {
    hide Conserved;
    RetagConserves(e, o, Touched(e.metas[o], now));
    CountConserves(e.(metas := e'.metas), e');
  }

  lemma InRecency(metas: map<nat, Meta>, l: seq<nat>, o: nat)
    requires Recency(metas, l)
    ensures o in l <==> o in metas
  {
  }

  lemma DropStaysSingle(e: EState, b: nat, k: nat, o: nat)
    requires Single(e, b, k)
    ensures Single(Drop(e, o), b, k) && Drop(e, o).metas == e.metas - {o}
  {
    hide Conserved, Injective, BacksValid;
    ConservedTracked(e);
    DropFacts(e, o);
  }

  lemma CountStaysSingle(e: EState, b: nat, k: nat, e': EState)
    requires Single(e, b, k) && e'.metas == e.metas && e'.backs == e.backs
    ensures Single(e', b, k)
  {
    CountConserves(e, e');
  }

  lemma InvalidateRefines(e: EState, b: nat, k: nat, l: seq<nat>, o: nat, e': EState)
    requires Single(e, b, k) && Recency(e.metas, l) && Tracked(e) && LocalInvalidate(e, o, e', true)
    ensures Single(e', b, k) && Recency(e'.metas, Next(l, k, Invalidate(o)))
  {
    hide Single, Recency, Holds, Injective, BacksValid, Drop;
    DropStaysSingle(e, b, k, o);
    RecencyRemove(e.metas, l, o);
    if o in e.metas {
      CountStaysSingle(Drop(e, o), b, k, e');
    } else {
      assert e.metas - {o} == e.metas;
    }
  }

  // ------------------------------------------------------------ whole runs

  predicate Timed(op: Op) {
    op.StoreOp? || op.LoadOp?
  }

  /** No flags are touched, and each store and load reads a later clock than those before it. */
  predicate Ticking(ops: seq<Op>) {
    && (forall i | 0 <= i < |ops| :: !ops[i].FlagOp?)
    && forall i, j | 0 <= i < j < |ops| && Timed(ops[i]) && Timed(ops[j]) :: ops[i].now < ops[j].now
  }

  function AccessOf(op: Op): Access
    requires !op.FlagOp?
  {
    match op
    case StoreOp(o, _, _) => Store(o)
    case LoadOp(o, _) => Load(o)
    case InvalidateOp(o) => Invalidate(o)
  }

  function TraceOf(ops: seq<Op>): (t: seq<Access>)
    requires Ticking(ops)
    ensures |t| == |ops| && forall i | 0 <= i < |ops| :: t[i] == AccessOf(ops[i])
  {
    seq(|ops|, i requires 0 <= i < |ops| => AccessOf(ops[i]))
  }

  /** Every last access was made by some store or load of the run. */
  predicate Stamped(metas: map<nat, Meta>, ops: seq<Op>) {
    forall o | o in metas :: exists i :: 0 <= i < |ops| && Timed(ops[i]) && ops[i].now == metas[o].lastAccess
  }

  /** An empty engine with one local backend of capacity `k`. */
  predicate Fresh(e: EState, b: nat, k: nat) {
    Single(e, b, k) && e.metas == map[]
  }

  /** One call of the run, taken from the list's side. */
  lemma StepRefines(e: EState, b: nat, k: nat, l: seq<nat>, op: Op, e': EState)
    requires Single(e, b, k) && Recency(e.metas, l) && !op.FlagOp? && (Timed(op) ==> AllBefore(e.metas, op.now))
    requires Tracked(e) && LocalStep(e, op, e')
    ensures Single(e', b, k) && Recency(e'.metas, Next(l, k, AccessOf(op)))
  {
    hide Single, Recency, LocalStore, LocalLoad, LocalInvalidate, Next, AllBefore;
    match op
    case StoreOp(o, data, now) =>
      var r, victim :| LocalStore(e, o, data, now, e', r, victim);
      StoreRefines(e, b, k, l, o, data, now, e', r, victim);
    case LoadOp(o, now) =>
      var r :| LocalLoad(e, o, now, e', r);
      LoadRefines(e, b, k, l, o, now, e', r);
    case InvalidateOp(o) =>
      InvalidateRefines(e, b, k, l, o, e');
  }

  /** Last accesses after a call are those before it, or the call's own time. */
  lemma StepStamps(e: EState, op: Op, e': EState)
    requires Conserved(e) && !op.FlagOp? && LocalStep(e, op, e')
    ensures forall o | o in e'.metas ::
              (o in e.metas && e'.metas[o].lastAccess == e.metas[o].lastAccess)
              || (Timed(op) && e'.metas[o].lastAccess == op.now)
  {
    hide Conserved, LocalStore, Injective, BacksValid;
    ConservedTracked(e);
    match op
    case StoreOp(o, data, now) =>
      var r, victim :| LocalStore(e, o, data, now, e', r, victim);
      StoreConserves(e, o, data, now, e', r, victim);
      if o in e'.metas { StoreStampsNow(e, o, data, now, e', r, victim); }
    case LoadOp(_, _) =>
    case InvalidateOp(_) =>
  }

  lemma StoreStampsNow(e: EState, o: nat, data: Page, now: nat, e': EState, r: Result<Placed>, victim: Option<nat>)
    requires Conserved(e) && LocalStore(e, o, data, now, e', r, victim) && o in e'.metas
    ensures (o in e.metas && e'.metas[o] == e.metas[o]) || e'.metas[o].lastAccess == now
  {
    hide Conserved, LocalStore, Cleared, Drop, IsPlacement;
    var _ := StoreTakenApart(e, o, data, now, e', r, victim);
  }

  lemma StampedBefore(metas: map<nat, Meta>, ops: seq<Op>, n: nat)
    requires Ticking(ops) && n < |ops| && Timed(ops[n]) && Stamped(metas, ops[..n])
    ensures AllBefore(metas, ops[n].now)
  {
    forall o | o in metas ensures metas[o].lastAccess < ops[n].now {
      var i :| 0 <= i < |ops[..n]| && Timed(ops[..n][i]) && ops[..n][i].now == metas[o].lastAccess;
    }
  }

  lemma StampedStep(e: EState, ops: seq<Op>, n: nat, e': EState)
    requires n < |ops| && Conserved(e) && !ops[n].FlagOp? && LocalStep(e, ops[n], e') && Stamped(e.metas, ops[..n])
    ensures Stamped(e'.metas, ops[..n + 1])
  {
    hide Conserved, LocalStep, Tracked;
    StepStamps(e, ops[n], e');
    var before, upto := ops[..n], ops[..n + 1];
    forall o | o in e'.metas
      ensures exists i :: 0 <= i < |upto| && Timed(upto[i]) && upto[i].now == e'.metas[o].lastAccess
    {
      if Timed(ops[n]) && e'.metas[o].lastAccess == ops[n].now {
        assert upto[n] == ops[n];
      } else {
        var i :| 0 <= i < |before| && Timed(before[i]) && before[i].now == e.metas[o].lastAccess;
        assert upto[i] == before[i];
      }
    }
  }

  lemma FreshRefines(e: EState, b: nat, k: nat)
    requires Fresh(e, b, k)
    ensures Single(e, b, k) && Stamped(e.metas, []) && Recency(e.metas, [])
  {
  }

  lemma TracePrefix(ops: seq<Op>)
    requires Ticking(ops) && ops != []
    ensures var n := |ops| - 1;
            Ticking(ops[..n]) && TraceOf(ops[..n]) == TraceOf(ops)[..n] && TraceOf(ops)[n] == AccessOf(ops[n])
  {
  }

  /**
   The refinement over whole runs: from a fresh engine of capacity `k`, with a
   clock that ticks, the tracked offsets in order of last access are the LRU list.
   */
  lemma {:induction false} RunRefines(es: seq<EState>, ops: seq<Op>, b: nat, k: nat)
    requires LocalRun(es, ops) && Ticking(ops) && Fresh(es[0], b, k)
    ensures Single(es[|ops|], b, k) && Stamped(es[|ops|].metas, ops)
    ensures Recency(es[|ops|].metas, Run(k, TraceOf(ops)))
    decreases |ops|
  {
    assert |es| == |ops| + 1;
    hide Single, Recency, Stamped, Next, LocalRun, LocalStep, Tracked, Ticking, Fresh, TraceOf;
    if ops == [] {
      FreshRefines(es[0], b, k);
    } else {
      var n := |ops| - 1;
      var trace := TraceOf(ops);
      RunPrefix(es, ops);
      TracePrefix(ops);
      RunRefines(es[..n + 1], ops[..n], b, k);
      RunRefinesStep(es[n], ops, n, es[n + 1], b, k, Run(k, trace[..n]));
      assert ops[..n + 1] == ops;
    }
  }

  lemma RunRefinesStep(e: EState, ops: seq<Op>, n: nat, e': EState, b: nat, k: nat, l: seq<nat>)
    requires Ticking(ops) && n < |ops| && Single(e, b, k) && Stamped(e.metas, ops[..n]) && Recency(e.metas, l)
    requires Tracked(e) && LocalStep(e, ops[n], e')
    ensures Single(e', b, k) && Stamped(e'.metas, ops[..n + 1])
    ensures Recency(e'.metas, Next(l, k, AccessOf(ops[n])))
  {
    hide Single, Recency, LocalStep, Tracked, Stamped, Next;
    SingleConserved(e, b, k);
    if Timed(ops[n]) {
      StampedBefore(e.metas, ops, n);
    }
    StepRefines(e, b, k, l, ops[n], e');
    StampedStep(e, ops, n, e');
  }

  // ------------------------------------------------------------ no Belady anomaly

  /** Common offsets of two engines hold the same page. */
  ghost predicate Agree(e: EState, f: EState)
    requires Tracked(e) && Tracked(f)
  {
    forall o | o in e.metas && o in f.metas :: PageMap(e)[o] == PageMap(f)[o]
  }

  lemma StepAgrees(e: EState, f: EState, op: Op, e': EState, f': EState)
    requires Conserved(e) && Conserved(f) && Agree(e, f) && LocalStep(e, op, e') && LocalStep(f, op, f')
    ensures Conserved(e') && Conserved(f') && Agree(e', f')
  {
    hide Conserved, LocalStep, Holds, Injective, BacksValid;
    ConservedTracked(e);
    ConservedTracked(f);
    StepConserves(e, op, e');
    StepConserves(f, op, f');
    ConservedTracked(e');
    ConservedTracked(f');
    StepPages(e, op, e');
    StepPages(f, op, f');
  }

  lemma {:induction false} RunsAgree(es: seq<EState>, fs: seq<EState>, ops: seq<Op>)
    requires LocalRun(es, ops) && LocalRun(fs, ops) && Conserved(es[0]) && Conserved(fs[0]) && Agree(es[0], fs[0])
    ensures Conserved(es[|ops|]) && Conserved(fs[|ops|]) && Agree(es[|ops|], fs[|ops|])
    decreases |ops|
  {
    hide Conserved, LocalStep, Agree, Holds, Injective, BacksValid;
    if ops != [] {
      var n := |ops| - 1;
      RunsAgree(es[..n + 1], fs[..n + 1], ops[..n]);
      StepAgrees(es[n], fs[n], ops[n], es[n + 1], fs[n + 1]);
    }
  }

  /**
   No Belady anomaly in the engine: run the same calls on capacities `k <= m`, and
   whatever the smaller engine tracks the larger tracks too, with the same page; so
   every load that succeeds with less memory succeeds with more, and returns the
   same bytes.
   */
  lemma NoBelady(es: seq<EState>, fs: seq<EState>, ops: seq<Op>, b: nat, k: nat, c: nat, m: nat, o: nat)
    requires LocalRun(es, ops) && LocalRun(fs, ops) && Ticking(ops) && k <= m
    requires Fresh(es[0], b, k) && Fresh(fs[0], c, m)
    requires o in es[|ops|].metas
    ensures Tracked(es[|ops|]) && Tracked(fs[|ops|])
    ensures o in fs[|ops|].metas && PageMap(fs[|ops|])[o] == PageMap(es[|ops|])[o]
  {
    hide LocalStep, Single, Conserved, Holds, Injective, BacksValid;
    SingleConserved(es[0], b, k);
    SingleConserved(fs[0], c, m);
    ConservedTracked(es[0]);
    ConservedTracked(fs[0]);
    RunsAgree(es, fs, ops);
    ConservedTracked(es[|ops|]);
    ConservedTracked(fs[|ops|]);
    RunRefines(es, ops, b, k);
    RunRefines(fs, ops, c, m);
    MoreHoldsMore(k, m, TraceOf(ops), o);
  }
}
