/**
 What the swap protocol adds to its engine's reliability: nothing is lost on the way.
 Over an engine that takes every store and finds every page it took, every write ends
 as a success, and so does every read of a page written before.
 */
module SwapAvailability {
  import opened Pages
  import opened SwapProtocol
  import opened SwapInvariant
  import opened SwapSafety
  import ES = EngineSpec
  import EC = EngineCapacity
  import LR = LocalRuns

  /** The engine does its part: stores succeed and lose nothing, loads find what is held. */
  predicate Reliable(s: State, step: Step) {
    match step
    case DStore(ok, next) => ok && s.d.DStoring? && next == s.store[s.d.req.offset := s.d.page]
    case DLoad(ok) => s.d.DGot? && (ok <==> s.d.req.offset in s.store)
    case _ => true
  }

  ghost predicate ReliableRun(c: Config, s: State, steps: seq<Step>)
    decreases |steps|
  {
    steps != [] && Sized(c, s) && Guard(c, s, steps[0]) ==>
      Reliable(s, steps[0]) && ReliableRun(c, Apply(c, s, steps[0]), steps[1..])
  }

  lemma {:induction false} ReliableOn(c: Config, s: State, steps: seq<Step>, m: State, step: Step)
    requires Runs(c, s, steps, m) && ReliableRun(c, s, steps) && Reliable(m, step)
    ensures ReliableRun(c, s, steps + [step])
    decreases |steps|
  {
    hide Guard, Apply, Reliable;
    if steps == [] {
      assert ([] + [step])[1..] == [];
    } else {
      ReliableOn(c, Apply(c, s, steps[0]), steps[1..], m, step);
      assert (steps + [step])[1..] == steps[1..] + [step];
    }
  }

  /** Every write is to one of `offsets`. */
  predicate WritesTo(log: seq<Entry>, offsets: set<nat>) {
    forall i | 0 <= i < |log| && log[i].isWrite :: log[i].idx in offsets
  }

  lemma WriteGrows(log: seq<Entry>, e: Entry, offsets: set<nat>)
    requires WritesTo(log, offsets) && (e.isWrite ==> e.idx in offsets)
    ensures WritesTo(log + [e], offsets)
  {
  }

  /** A store the daemon has taken is to one of them. */
  lemma StoreIsLogged(c: Config, s: State, offsets: set<nat>)
    requires Inv(c, s) && s.d.DGot? && s.d.req.op == OP_STORE && WritesTo(s.g.log, offsets)
    ensures s.d.req.offset in offsets
  {
    hide RequestsHold, CompletionsHold, SlotsOwned, TagsOwned, HandHeld, HandFilled, HandWritten, HarvesterAt;
    hide StoresStaged, LoadsStaged, StoreSound, LoadsSound, EndingsSound, EntriesSound;
  }

  /** Request `i` is one the engine must answer with a success: a write, or a read of a page of the device written before. */
  predicate Due(log: seq<Entry>, i: nat)
    requires i < |log|
  {
    log[i].isWrite || exists w | 0 <= w < i :: log[w].isWrite && SamePage(log[w].sector, log[i].sector)
  }

  /** The same by index. */
  predicate IndexDue(log: seq<Entry>, i: nat)
    requires i < |log|
  {
    log[i].isWrite || LastWrite(log, i, log[i].idx).Some?
  }

  lemma DueByIndex(c: Config, s: State, i: nat)
    requires Inv(c, s) && i < |s.g.log| && Due(s.g.log, i)
    ensures IndexDue(s.g.log, i)
  {
    hide RequestsHold, CompletionsHold, SlotsOwned, TagsOwned, HandHeld, HandFilled, HandWritten, DaemonAt, HarvesterAt;
    hide StoresStaged, LoadsStaged, StoreSound, LoadsSound, EndingsSound, EntriesSound, LastWrite, SamePage;
    LastWriteIs(c.cap, s.g.log, i);
  }

  predicate AllDone(store: map<nat, Page>, log: seq<Entry>, outcomes: seq<Outcome>)
    requires |outcomes| <= |log|
  {
    && (forall i | 0 <= i < |outcomes| && IndexDue(log, i) :: outcomes[i].ok)
    && (forall i | 0 <= i < |outcomes| && log[i].isWrite :: log[i].idx in store)
  }

  lemma DueGrows(log: seq<Entry>, e: Entry, i: nat)
    requires i < |log|
    ensures IndexDue(log + [e], i) == IndexDue(log, i)
  {
    LastWriteAppend(log, [e], i, log[i].idx);
  }

  lemma PublishedDone(store: map<nat, Page>, log: seq<Entry>, e: Entry, outcomes: seq<Outcome>)
    requires |outcomes| <= |log| && AllDone(store, log, outcomes)
    ensures AllDone(store, log + [e], outcomes)
  {
    forall i | 0 <= i < |outcomes| && IndexDue(log + [e], i) ensures outcomes[i].ok {
      DueGrows(log, e, i);
    }
  }

  lemma StoredDone(store: map<nat, Page>, log: seq<Entry>, outcomes: seq<Outcome>, page: Page)
    requires |outcomes| < |log| && AllDone(store, log, outcomes)
    ensures AllDone(store[log[|outcomes|].idx := page], log, outcomes + [Outcome(true, [])])
  {
  }

  lemma LoadedDone(store: map<nat, Page>, log: seq<Entry>, outcomes: seq<Outcome>, o: Outcome)
    requires |outcomes| < |log| && AllDone(store, log, outcomes)
    requires !log[|outcomes|].isWrite && (o.ok <==> log[|outcomes|].idx in store)
    ensures AllDone(store, log, outcomes + [o])
  {
    var n := |outcomes|;
    if IndexDue(log, n) {
      assert log[LastWrite(log, n, log[n].idx).value].idx in store;
    }
  }

  lemma StepDone(c: Config, s: State, step: Step)
    requires Inv(c, s) && Guard(c, s, step) && Reliable(s, step) && AllDone(s.store, s.g.log, s.g.outcomes)
    ensures var s' := Apply(c, s, step);
      |s'.g.outcomes| <= |s'.g.log| && AllDone(s'.store, s'.g.log, s'.g.outcomes)
  {
    hide RequestsHold, CompletionsHold, SlotsOwned, TagsOwned, HandHeld, HandFilled, HandWritten, HarvesterAt;
    hide StoresStaged, LoadsStaged, StoreSound, LoadsSound, EndingsSound, AllDone, EntriesSound;
    match step
    case KPublish => PublishedDone(s.store, s.g.log, Apply(c, s, step).g.log[|s.g.log|], s.g.outcomes);
    case DStore(_, _) => StoredDone(s.store, s.g.log, s.g.outcomes, s.d.page);
    case DLoad(_) => LoadedDone(s.store, s.g.log, s.g.outcomes, Apply(c, s, step).g.outcomes[|s.g.outcomes|]);
    case DReject => NeverRejects(c, s);
    case _ =>
  }

  lemma {:induction false} RunDone(c: Config, s: State, steps: seq<Step>, s': State)
    requires ValidConfig(c) && Inv(c, s) && Runs(c, s, steps, s') && ReliableRun(c, s, steps)
    requires |s.g.outcomes| <= |s.g.log| && AllDone(s.store, s.g.log, s.g.outcomes)
    ensures |s'.g.outcomes| <= |s'.g.log| && AllDone(s'.store, s'.g.log, s'.g.outcomes)
    decreases |steps|
  {
    hide Inv, Guard, Apply, Reliable, AllDone;
    if steps != [] {
      StepDone(c, s, steps[0]);
      StepKeeps(c, s, steps[0]);
      RunDone(c, Apply(c, s, steps[0]), steps[1..], s');
    }
  }

  /**
   In every interleaving over a reliable engine, every write that ended, and every read
   that ended of a page written before it, ended as a success.
   */
  lemma AllSucceed(c: Config, steps: seq<Step>, s: State, i: nat)
    requires ValidConfig(c) && Runs(c, Init(c), steps, s) && ReliableRun(c, Init(c), steps)
    requires i < |s.g.endings|
    ensures i < |s.g.log| && (Due(s.g.log, i) ==> s.g.endings[i].ok)
  {
    hide ReliableRun, Due, IndexDue;
    InitInv(c);
    Reachable(c, steps, s);
    RunDone(c, Init(c), steps, s);
    EndingIsOutcome(c, s, i);
    if Due(s.g.log, i) { DueByIndex(c, s, i); }
  }

  lemma EndingIsOutcome(c: Config, s: State, i: nat)
    requires Inv(c, s) && i < |s.g.endings|
    ensures i < |s.g.outcomes| <= |s.g.log| && s.g.endings[i].ok == s.g.outcomes[i].ok
  {
  }

  // ------------------------------------------------------------ an engine that is reliable

  /**
   An engine over local backends with capacity for every index stored to is such an
   engine, and stays one: whatever it answers is a reliable step.
   */
  lemma AmpleStores(s: State, e: ES.EState, offsets: set<nat>, now: nat, e': ES.EState, r: Result<ES.Placed>, victim: Option<nat>)
    requires EC.Ample(e, offsets) && ES.Tracked(e) && s.store == ES.PageMap(e)
    requires s.d.DStoring? && s.d.req.offset in offsets
    requires ES.LocalStore(e, s.d.req.offset, s.d.page, now, e', r, victim)
    ensures ES.Tracked(e') && EC.Ample(e', offsets) && Reliable(s, DStore(r.Ok?, ES.PageMap(e')))
  {
    hide ES.LocalStore, ES.Holds, ES.Injective, ES.BacksValid, ES.PageMap, LR.Conserved, EC.Capacity;
    var op := LR.StoreOp(s.d.req.offset, s.d.page, now);
    assert LR.LocalStep(e, op, e');
    EC.AmpleStore(e, offsets, s.d.req.offset, s.d.page, now, e', r, victim);
    EC.AmpleStep(e, offsets, op, e');
  }

  lemma AmpleLoads(s: State, e: ES.EState, offsets: set<nat>, now: nat, e': ES.EState, r: Result<Page>)
    requires EC.Ample(e, offsets) && ES.Tracked(e) && s.store == ES.PageMap(e)
    requires s.d.DGot? && ES.LocalLoad(e, s.d.req.offset, now, e', r)
    ensures ES.Tracked(e') && EC.Ample(e', offsets) && ES.PageMap(e') == ES.PageMap(e) && Reliable(s, DLoad(r.Ok?))
  {
    hide ES.Holds, ES.Injective, ES.BacksValid, ES.PagesOf, LR.Conserved, EC.Capacity;
    ES.PageKeys(e);
    var op := LR.LoadOp(s.d.req.offset, now);
    assert LR.LocalStep(e, op, e');
    EC.AmpleStep(e, offsets, op, e');
  }
}
