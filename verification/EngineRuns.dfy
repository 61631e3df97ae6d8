/**
 The engine's code over whole sequences of calls: every sequence is a run of the lossy
 page map, and over local backends a run of the exact engine, so what is proved of such
 runs holds of the code. Over any backends, abandoned ones stay so, and placement is fair
 while no call fails.
 */
module EngineRuns {
  import opened Pages
  import opened Policy
  import opened EngineSpec
  import opened EnginePlaces
  import opened Engine
  import opened EvenPlacement
  import opened LocalRuns
  import opened LossyRuns

  datatype Command =
    | Store(offset: nat, data: Page, now: nat)
    | Load(offset: nat, now: nat)
    | Invalidate(offset: nat)
    | Mark(offset: nat, flag: bv8)
    | Unmark(offset: nat, flag: bv8)

  /** What a command was, seen as a call on the page map and as a call on the exact engine. */
  datatype Done = Done(call: Option<Call>, op: Op, failed: bool)

  /** A call that gives no page up: a store to an offset not tracked, a load, or a flag. */
  predicate Adding(e: EState, op: Op) {
    match op
    case StoreOp(o, _, _) => o !in e.metas
    case InvalidateOp(_) => false
    case _ => true
  }

  /** Flags are no call on the page map. */
  predicate PageStep(m: map<nat, Page>, call: Option<Call>, m': map<nat, Page>) {
    if call.None? then m' == m else CallStep(m, call.value, m')
  }

  lemma ForgetsAll(e: EState, e': EState, o: nat)
    requires Tracked(e) && Shrinks(e, e') && o !in e'.metas
    ensures Tracked(e') && CallStep(PageMap(e), InvalidateCall(o), PageMap(e'))
  {
    PageKeys(e');
  }

  function Flagged(e: EState, o: nat, flags: bv8): EState {
    if o in e.metas then e.(metas := e.metas[o := e.metas[o].(flags := flags)]) else e
  }

  lemma FlagKeeps(e: EState, o: nat, flags: bv8)
    requires Tracked(e)
    ensures var e' := Flagged(e, o, flags); Tracked(e') && PageMap(e') == PageMap(e)
  {
    FlagTracked(e, o, flags);
    RetaggedPages(e, Flagged(e, o, flags));
  }

  lemma FlagTracked(e: EState, o: nat, flags: bv8)
    requires Tracked(e)
    ensures Tracked(Flagged(e, o, flags))
    ensures Flagged(e, o, flags).metas.Keys == e.metas.Keys
    ensures forall p | p in e.metas :: PlaceOf(Flagged(e, o, flags).metas[p]) == PlaceOf(e.metas[p])
  {
    var e' := Flagged(e, o, flags);
    forall p | p in e'.metas ensures p in e.metas && PlaceOf(e'.metas[p]) == PlaceOf(e.metas[p]) {}
  }

  lemma FlagIsQuiet(e: EState, o: nat, flags: bv8)
    ensures Quiet(e, Flagged(e, o, flags)) && LeavesAlone(e, Flagged(e, o, flags))
  {
    LeavesRetagged(e, Flagged(e, o, flags));
  }

  // ------------------------------------------------------------ pinned pages

  /** Bit 1 of an offset's flags pins its page. */
  predicate Pinned(e: EState, p: nat) {
    p in e.metas && e.metas[p].flags & 2 != 0
  }

  /** The commands that may end the pinned life of a page: to unpin it, to store over it, to invalidate it. */
  predicate Releases(c: Command, p: nat) {
    match c
    case Store(o, _, _) => o == p
    case Load(_, _) => false
    case Invalidate(o) => o == p
    case Mark(_, _) => false
    case Unmark(o, flag) => o == p && flag & 2 != 0
  }

  /** No other command touches a pinned page, its flag or its bytes. */
  ghost predicate Pins(e: EState, c: Command, e': EState) {
    && Tracked(e) && Tracked(e')
    && forall p | Pinned(e, p) && !Releases(c, p) :: Pinned(e', p) && PageMap(e')[p] == PageMap(e)[p]
  }

  lemma StorePins(e: EState, o: nat, data: Page, now: nat, lost: set<nat>, e': EState)
    requires Tracked(e) && Tracked(e')
    requires e'.metas - {o} == e.metas - {o} - lost && OnePerBackend(e.metas - {o}, lost)
    requires PageMap(e') - {o} == PageMap(e) - {o} - lost
    ensures Pins(e, Store(o, data, now), e')
  {
    hide Holds, Injective, BacksValid, PageMap;
    PageKeys(e);
    PageKeys(e');
    forall p | Pinned(e, p) && p != o ensures Pinned(e', p) && PageMap(e')[p] == PageMap(e)[p] {
      if p in lost { LostUnpinned(e.metas - {o}, lost, p); }
      assert p in e.metas - {o} - lost && p in PageMap(e) - {o} - lost;
      assert (e'.metas - {o})[p] == e.metas[p] && (PageMap(e') - {o})[p] == PageMap(e)[p];
    }
  }

  lemma LostUnpinned(metas: map<nat, Meta>, lost: set<nat>, v: nat)
    requires OnePerBackend(metas, lost) && v in lost
    ensures v in metas && metas[v].flags & 2 == 0
  {
    hide Contains;
    PinnedBit(metas[v].flags);
  }

  lemma LoadPins(e: EState, o: nat, now: nat, e': EState)
    requires Tracked(e) && Tracked(e') && SameFlags(e.metas, e'.metas) && PageMap(e') == PageMap(e)
    ensures Pins(e, Load(o, now), e')
  {
    hide Holds, Injective, BacksValid, PageMap;
    PageKeys(e);
    PageKeys(e');
  }

  lemma InvalidatePins(e: EState, o: nat, e': EState)
    requires Tracked(e) && Shrinks(e, e') && e'.metas == e.metas - {o}
    ensures Tracked(e') && Pins(e, Invalidate(o), e')
  {
    hide Injective, BacksValid;
    ShrinksTracked(e, e');
    PageKeys(e);
    PageKeys(e');
  }

  /** What setting or clearing a flag makes of an offset's flags. */
  predicate FlagsAre(e: EState, o: nat, flag: bv8, on: bool, flags: bv8) {
    o in e.metas ==> flags == if on then e.metas[o].flags | flag else e.metas[o].flags & !flag
  }

  lemma MarkPins(e: EState, o: nat, flag: bv8, on: bool, flags: bv8)
    requires Tracked(e) && FlagsAre(e, o, flag, on, flags)
    ensures Pins(e, if on then Mark(o, flag) else Unmark(o, flag), Flagged(e, o, flags))
  {
    hide Holds, Injective, BacksValid, PageMap;
    FlagKeeps(e, o, flags);
    PageKeys(e);
    if o in e.metas { PinBits(e.metas[o].flags, flag); }
  }

  lemma PinBits(f: bv8, g: bv8)
    ensures f & 2 != 0 ==> (f | g) & 2 != 0
    ensures f & 2 != 0 && g & 2 == 0 ==> (f & !g) & 2 != 0
  {
  }

  /** Every command so far left the pinned pages alone. */
  ghost predicate PinsAll(es: seq<EState>, commands: seq<Command>) {
    |es| == |commands| + 1 && forall n | 0 <= n < |commands| :: Pins(es[n], commands[n], es[n + 1])
  }

  lemma PinsMore(es: seq<EState>, commands: seq<Command>, n: nat, e': EState)
    requires n < |commands| && PinsAll(es, commands[..n]) && Pins(es[n], commands[n], e')
    ensures PinsAll(es + [e'], commands[..n + 1])
  {
    hide Pins;
  }

  /**
   A pinned page stays, with its bytes and its flag, over any loads, any stores to other
   offsets and any failures of the backends, until it is unpinned, stored over or invalidated.
   */
  lemma {:induction false} PinnedStays(es: seq<EState>, commands: seq<Command>, j: nat, k: nat, p: nat)
    requires PinsAll(es, commands) && j <= k <= |commands|
    requires Tracked(es[j]) && Pinned(es[j], p) && forall n | j <= n < k :: !Releases(commands[n], p)
    ensures Tracked(es[k]) && Pinned(es[k], p) && PageMap(es[k])[p] == PageMap(es[j])[p]
    decreases k
  {
    hide Tracked, PageMap, Pinned, Releases;
    if j < k {
      PinnedStays(es, commands, j, k - 1, p);
      assert Pins(es[k - 1], commands[k - 1], es[k - 1 + 1]);
    }
  }

  /** A call took the engine from `e` to `e'`. */
  ghost predicate Stepped(e: EState, done: Done, e': EState) {
    && Tracked(e) && Tracked(e')
    && PageStep(PageMap(e), done.call, PageMap(e'))
    && (AllLocal(e.backs) ==> LocalStep(e, done.op, e') && AllLocal(e'.backs) && !done.failed)
    && LeavesAlone(e, e')
    && (!done.failed && Adding(e, done.op) ==> SmoothStep(e, e'))
  }

  method DoStore(engine: DaemonEngine, o: nat, data: Page, now: nat) returns (ghost done: Done)
    requires engine.Valid()
    modifies engine, engine.policy, engine.backends.Values
    ensures engine.Valid() && Stepped(old(engine.View()), done, engine.View())
    ensures Pins(old(engine.View()), Store(o, data, now), engine.View())
  {
    hide Holds, Injective, BacksValid, LocalStore, LossyStore, PageMap, AllLocal, Forgets, SmoothStore, Leaves;
    hide Pins, OnePerBackend, FirstTier;
    ghost var e := engine.View();
    engine.Kinds();
    var r, _, lost, _, failed := engine.StorePage(o, data, now);
    StorePins(e, o, data, now, lost, engine.View());
    engine.Kinds();
    done := Done(Some(StoreCall(o, data, r.Ok?)), StoreOp(o, data, now), failed);
  }

  method DoLoad(engine: DaemonEngine, o: nat, now: nat) returns (ghost done: Done)
    requires engine.Valid()
    modifies engine, engine.policy, engine.backends.Values
    ensures engine.Valid() && Stepped(old(engine.View()), done, engine.View())
    ensures Pins(old(engine.View()), Load(o, now), engine.View())
  {
    hide Holds, Injective, BacksValid, LocalLoad, LossyLoad, PageMap, AllLocal, Quiet, Leaves, SameFlags, Pins;
    ghost var e := engine.View();
    engine.Kinds();
    var r := engine.LoadPage(o, now);
    engine.Kinds();
    LoadPins(e, o, now, engine.View());
    if AllLocal(e.backs) && o in e.metas { LocalLoadFinds(e, o, now, engine.View(), r); }
    done := Done(Some(LoadCall(o, r)), LoadOp(o, now), r.Err? && o in e.metas);
  }

  lemma LocalLoadFinds(e: EState, o: nat, now: nat, e': EState, r: Result<Page>)
    requires Tracked(e) && LocalLoad(e, o, now, e', r) && o in e.metas
    ensures r.Ok?
  {
  }

  method DoInvalidate(engine: DaemonEngine, o: nat) returns (ghost done: Done)
    requires engine.Valid()
    modifies engine, engine.policy, engine.backends.Values
    ensures engine.Valid() && Stepped(old(engine.View()), done, engine.View())
    ensures Pins(old(engine.View()), Invalidate(o), engine.View())
  {
    hide Holds, Injective, BacksValid, Shrinks, LocalInvalidate, PageMap, AllLocal, CallStep, Leaves, Abandoned, Sole, Pins;
    ghost var e := engine.View();
    engine.Kinds();
    var ok := engine.InvalidatePage(o);
    engine.Kinds();
    ForgetsAll(e, engine.View(), o);
    InvalidatePins(e, o, engine.View());
    if AllLocal(e.backs) { InvalidateOk(e, o, engine.View(), ok); }
    done := Done(Some(InvalidateCall(o)), InvalidateOp(o), !ok);
  }

  lemma InvalidateOk(e: EState, o: nat, e': EState, ok: bool)
    requires Holds(e.metas, e.backs) && LocalInvalidate(e, o, e', ok)
    ensures ok && LocalInvalidate(e, o, e', true)
  {
  }

  /** A flag set changes the flags of one offset, if it is tracked. */
  method Set(engine: DaemonEngine, o: nat, flag: bv8) returns (ghost flags: bv8)
    requires engine.Valid()
    modifies engine.policy
    ensures engine.View() == Flagged(old(engine.View()), o, flags)
    ensures FlagsAre(old(engine.View()), o, flag, true, flags)
  {
    hide DaemonEngine.Valid, Contains;
    engine.policy.SetFlag(o, flag);
    flags := if o in engine.policy.pages then engine.policy.pages[o].flags else 0;
  }

  /** So does a flag cleared. */
  method Clear(engine: DaemonEngine, o: nat, flag: bv8) returns (ghost flags: bv8)
    requires engine.Valid()
    modifies engine.policy
    ensures engine.View() == Flagged(old(engine.View()), o, flags)
    ensures FlagsAre(old(engine.View()), o, flag, false, flags)
  {
    hide DaemonEngine.Valid, Contains;
    engine.policy.ClearFlag(o, flag);
    flags := if o in engine.policy.pages then engine.policy.pages[o].flags else 0;
  }

  method SetOrClear(engine: DaemonEngine, o: nat, flag: bv8, on: bool) returns (ghost flags: bv8)
    requires engine.Valid()
    modifies engine.policy
    ensures engine.View() == Flagged(old(engine.View()), o, flags)
    ensures FlagsAre(old(engine.View()), o, flag, on, flags)
  {
    hide DaemonEngine.Valid, FlagsAre, Flagged;
    if on {
      flags := Set(engine, o, flag);
    } else {
      flags := Clear(engine, o, flag);
    }
  }

  method DoMark(engine: DaemonEngine, o: nat, flag: bv8, on: bool) returns (ghost done: Done)
    requires engine.Valid()
    modifies engine.policy
    ensures engine.Valid() && Stepped(old(engine.View()), done, engine.View())
    ensures Pins(old(engine.View()), if on then Mark(o, flag) else Unmark(o, flag), engine.View())
  {
    hide Holds, Injective, BacksValid, PageMap, AllLocal, Contains, Quiet, Leaves, Pins, FlagsAre;
    ghost var e := engine.View();
    engine.Kinds();
    ghost var flags := SetOrClear(engine, o, flag, on);
    engine.Kinds();
    FlagKeeps(e, o, flags);
    FlagIsQuiet(e, o, flags);
    MarkPins(e, o, flag, on, flags);
    done := Done(None, FlagOp(o, flags), false);
  }

  method Do(engine: DaemonEngine, c: Command) returns (ghost done: Done)
    requires engine.Valid()
    modifies engine, engine.policy, engine.backends.Values
    ensures engine.Valid() && Stepped(old(engine.View()), done, engine.View())
    ensures Pins(old(engine.View()), c, engine.View())
  {
    hide DaemonEngine.Valid, Stepped, Pins;
    match c
    case Store(o, data, now) => done := DoStore(engine, o, data, now);
    case Load(o, now) => done := DoLoad(engine, o, now);
    case Invalidate(o) => done := DoInvalidate(engine, o);
    case Mark(o, flag) => done := DoMark(engine, o, flag, true);
    case Unmark(o, flag) => done := DoMark(engine, o, flag, false);
  }

  /** The runs a sequence of commands has been so far. */
  ghost predicate RunSoFar(es: seq<EState>, ops: seq<Op>, ms: seq<map<nat, Page>>, calls: seq<Call>, e: EState) {
    && Tracked(e) && CallRun(ms, calls) && ms[|calls|] == PageMap(e)
    && |es| == |ops| + 1 && es[|ops|] == e
    && (AllLocal(es[0].backs) ==> LocalRun(es, ops) && AllLocal(e.backs))
    && (forall k | 0 <= k < |ops| :: LeavesAlone(es[k], es[k + 1]))
  }

  /** The run so far gave no page up. */
  predicate Filling(es: seq<EState>, ops: seq<Op>)
    requires |es| == |ops| + 1
  {
    forall k | 0 <= k < |ops| :: Adding(es[k], ops[k])
  }

  /** Evenness over one more call. */
  lemma FillsOn(es: seq<EState>, ops: seq<Op>, done: Done, e': EState)
    requires |es| == |ops| + 1 && Stepped(es[|ops|], done, e')
    requires !done.failed && Filling(es + [e'], ops + [done.op])
    ensures Filling(es, ops) && (Settled(es[|ops|]) ==> Settled(e'))
  {
    hide Tracked, PageMap, AllLocal, Leaves, SmoothStore, Quiet, Settled, Adding, LocalStep;
    var n, es', ops' := |ops|, es + [e'], ops + [done.op];
    assert es'[n] == es[n] && ops'[n] == done.op;
    forall k | 0 <= k < n ensures Adding(es[k], ops[k]) {
      assert es'[k] == es[k] && ops'[k] == ops[k];
    }
    if Settled(es[n]) {
      RunStaysEven([es[n], e']);
    }
  }

  lemma NoLocalFailure(e: EState, done: Done, e': EState)
    requires Stepped(e, done, e') && AllLocal(e.backs)
    ensures !done.failed
  {
  }

  lemma Extended(es: seq<EState>, ops: seq<Op>, ms: seq<map<nat, Page>>, calls: seq<Call>, e: EState, done: Done, e': EState)
    requires RunSoFar(es, ops, ms, calls, e) && Stepped(e, done, e')
    ensures if done.call.None? then RunSoFar(es + [e'], ops + [done.op], ms, calls, e')
            else RunSoFar(es + [e'], ops + [done.op], ms + [PageMap(e')], calls + [done.call.value], e')
  {
    hide Holds, Injective, BacksValid, PageMap, AllLocal, CallStep, LocalStep, Leaves, SmoothStep, Adding;
    var ops', es' := ops + [done.op], es + [e'];
    forall k | 0 <= k < |ops'| ensures LeavesAlone(es'[k], es'[k + 1]) {}
    if AllLocal(e.backs) && AllLocal(es[0].backs) {
      forall k | 0 <= k < |ops'| ensures Tracked(es'[k]) && LocalStep(es'[k], ops'[k], es'[k + 1]) {}
    }
    if done.call.Some? {
      var calls', ms' := calls + [done.call.value], ms + [PageMap(e')];
      forall k | 0 <= k < |calls'| ensures CallStep(ms'[k], calls'[k], ms'[k + 1]) {}
    }
  }

  /** The journal of a sequence of commands: the engine's states and operations, the page map's states and calls. */
  datatype Journal = Journal(es: seq<EState>, ops: seq<Op>, ms: seq<map<nat, Page>>, calls: seq<Call>, failed: bool)

  function Noted(j: Journal, done: Done, e': EState): Journal
    requires Holds(e'.metas, e'.backs)
  {
    Journal(j.es + [e'], j.ops + [done.op],
            if done.call.None? then j.ms else j.ms + [PageMap(e')],
            if done.call.None? then j.calls else j.calls + [done.call.value],
            j.failed || done.failed)
  }

  /** A journal that says of the commands so far what `Execute` does. */
  ghost predicate Kept(j: Journal, commands: seq<Command>, e: EState) {
    && RunSoFar(j.es, j.ops, j.ms, j.calls, e) && PinsAll(j.es, commands)
    && (AllLocal(j.es[0].backs) ==> !j.failed)
    && (Settled(j.es[0]) && !j.failed && Filling(j.es, j.ops) ==> Settled(e))
  }

  lemma KeptOn(j: Journal, commands: seq<Command>, n: nat, e: EState, done: Done, e': EState)
    requires n < |commands| && Kept(j, commands[..n], e) && Stepped(e, done, e') && Pins(e, commands[n], e')
    ensures Kept(Noted(j, done, e'), commands[..n + 1], e') && Noted(j, done, e').es[0] == j.es[0]
  {
    Extended(j.es, j.ops, j.ms, j.calls, e, done, e');
    assert j.es[n] == e;
    PinsMore(j.es, commands, n, e');
    if AllLocal(e.backs) { NoLocalFailure(e, done, e'); }
    hide Stepped, Pins, Settled, Filling, PinsAll, LocalStep, CallStep, AllLocal, Tracked, PageMap, LeavesAlone;
    if !done.failed && Filling(j.es + [e'], j.ops + [done.op]) {
      FillsOn(j.es, j.ops, done, e');
    }
  }

  lemma KeptNothing(e: EState)
    requires Tracked(e) && e.metas == map[]
    ensures Kept(Journal([e], [], [map[]], [], false), [], e)
  {
    NoPages(e);
    hide Holds, Injective, BacksValid, PageMap, AllLocal, LocalStep, CallStep, Settled, Filling, Pins;
  }

  lemma NoPages(e: EState)
    requires Holds(e.metas, e.backs) && e.metas == map[]
    ensures PageMap(e) == map[]
  {
  }

  /**
   Any sequence of commands on a fresh engine, over any backends: a run of the lossy page
   map, and over local backends a run of the exact engine. Abandoned backends are left alone
   at every step and so are pinned pages, and if no call on a backend failed and none gave a
   page up, backends filled evenly stay so.
   */
  method Execute(engine: DaemonEngine, commands: seq<Command>) returns (ghost j: Journal)
    requires engine.Valid() && engine.policy.pages == map[]
    modifies engine, engine.policy, engine.backends.Values
    ensures engine.Valid() && CallRun(j.ms, j.calls) && j.ms[|j.calls|] == PageMap(engine.View())
    ensures |j.es| == |j.ops| + 1 && j.es[0] == old(engine.View()) && j.es[|j.ops|] == engine.View()
    ensures old(AllLocal(engine.Views())) ==> LocalRun(j.es, j.ops) && !j.failed
    ensures forall k | 0 <= k < |j.ops| :: LeavesAlone(j.es[k], j.es[k + 1])
    ensures PinsAll(j.es, commands)
    ensures old(Settled(engine.View())) && !j.failed && Filling(j.es, j.ops) ==> Settled(engine.View())
  {
    KeptNothing(engine.View());
    j := Journal([engine.View()], [], [map[]], [], false);
    var k := 0;
    while k < |commands|
      invariant k <= |commands| && engine.Valid() && j.es != [] && j.es[0] == old(engine.View())
      invariant Kept(j, commands[..k], engine.View())
    {
      hide DaemonEngine.Valid, Kept, Stepped, Pins;
      ghost var e := engine.View();
      ghost var done := Do(engine, commands[k]);
      SteppedTracked(e, done, engine.View());
      KeptOn(j, commands, k, e, done, engine.View());
      j := Noted(j, done, engine.View());
      k := k + 1;
    }
    assert commands[..k] == commands;
    hide DaemonEngine.Valid, PinsAll, Filling, Settled, LocalRun, CallRun, PageMap, LeavesAlone;
  }

  lemma SteppedTracked(e: EState, done: Done, e': EState)
    requires Stepped(e, done, e')
    ensures Tracked(e')
  {
  }
}
