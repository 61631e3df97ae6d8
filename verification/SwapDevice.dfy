/**
 The code of the three threads over the shared memory.

 Each access to shared memory is a method, proved to be one step of the protocol.
 The driver's and the daemon's functions are the sequences of accesses they make:
 each appends its steps to the run the object has gone through, which stays a run of
 the protocol from its initial state. The accesses are what the threads interleave;
 a function called here runs through with the other threads standing anywhere.
 */
module SwapDevice {
  import opened Bits
  import opened Pages
  import opened SwapProtocol
  import opened SwapInvariant
  import opened SwapSafety
  import opened SwapDrain
  import opened SwapRuns
  import opened SwapAvailability
  import opened EngineSpec
  import opened EngineCapacity
  import opened EnginePlaces
  import opened Engine

  predicate SameCounts(a: History, b: History) {
    a.log == b.log && a.endings == b.endings && a.polled == b.polled && a.completed == b.completed && a.popped == b.popped
  }

  /** What an engine holds. */
  ghost function Held(engine: DaemonEngine): map<nat, Page>
    requires engine.Valid()
    reads engine, engine.policy, engine.backends.Values
  {
    PageMap(engine.View())
  }

  /** What is asked of the device: a request, or one pass of the daemon's or the harvester's loop. */
  datatype Job = Queue(tag: nat, bio: Bio) | Poll(now: nat) | Harvest

  class Memory {
    const c: Config
    var reqWrite: nat
    var reqRead: nat
    var compWrite: nat
    var compRead: nat
    const requests: array<Request>
    const completions: array<Completion>
    const staging: array<Page>
    const bitmap: array<bool>
    const cmds: array<Cmd>
    const rqs: array<Option<Bio>>

    // Where each thread is, what the engine holds, and the history.
    ghost var k: Submitter
    ghost var d: Daemon
    ghost var h: Harvester
    ghost var store: map<nat, Page>
    ghost var g: History
    /** The steps taken so far. */
    ghost var trace: seq<Step>

    constructor (c: Config)
      requires ValidConfig(c)
      ensures this.c == c && View() == Init(c) && trace == [] && Good()
    {
      this.c, trace := c, [];
      reqWrite, reqRead, compWrite, compRead := 0, 0, 0, 0;
      requests := new Request[c.cap](_ => Request(0, 0, 0, 0));
      completions := new Completion[c.cap](_ => Completion(0, 0, 0));
      staging := new Page[c.cap](_ => []);
      bitmap := new bool[c.cap](_ => false);
      cmds := new Cmd[c.depth](_ => Cmd(0, false));
      rqs := new Option<Bio>[c.depth](_ => None);
      k, d, h, store := KIdle, DIdle, HIdle, map[];
      g := History([], [], [], 0, 0, 0, seq(c.cap, _ => Free), seq(c.depth, _ => Free));
      new;
      InitInv(c);
    }

    ghost function View(): State
      reads this, requests, completions, staging, bitmap, cmds, rqs
    {
      State(reqWrite, reqRead, compWrite, compRead, requests[..], completions[..], staging[..],
            bitmap[..], cmds[..], rqs[..], k, d, h, store, g)
    }

    ghost predicate Can(step: Step)
      reads this, requests, completions, staging, bitmap, cmds, rqs
    {
      Sized(c, View()) && Guard(c, View(), step)
    }

    /** A state of the protocol, reached by a run of it. */
    ghost predicate Good()
      reads this, requests, completions, staging, bitmap, cmds, rqs
    {
      ValidConfig(c) && Inv(c, View()) && Runs(c, Init(c), trace, View())
    }

    /** In the run so far the engine has done its part. */
    ghost predicate Reliably()
      reads this`trace
    {
      ReliableRun(c, Init(c), trace)
    }

    /** So far it has, and it has capacity for every index written. */
    ghost predicate Assured(engine: DaemonEngine, offsets: set<nat>)
      reads this`trace, this`g, engine, engine.policy, engine.backends.Values
    {
      Reliably() && Ample(engine.View(), offsets) && WritesTo(g.log, offsets)
    }

    /** The least clear bit is set and returned, or the number of slots if there is none. */
    method AllocStagingSlot() returns (slot: nat)
      modifies bitmap
      ensures slot == FirstZero(old(bitmap[..]))
      ensures bitmap[..] == if slot < bitmap.Length then old(bitmap[..])[slot := true] else old(bitmap[..])
    {
      slot := 0;
      while slot < bitmap.Length && bitmap[slot]
        invariant slot <= bitmap.Length && forall i | 0 <= i < slot :: bitmap[i]
      {
        slot := slot + 1;
      }
      assert slot == FirstZero(bitmap[..]);
      if slot < bitmap.Length {
        bitmap[slot] := true;
      }
    }

    // ------------------------------------------------------------ the submitter's accesses

    method Take(tag: nat, bio: Bio) returns (slot: nat)
      requires Sized(c, View()) && k.KIdle? && tag < c.depth && View().rqs[tag].None?
      modifies this`k, this`g, bitmap, rqs
      ensures slot < c.cap ==> old(Can(KAlloc(tag, bio))) && View() == Apply(c, old(View()), KAlloc(tag, bio))
      ensures slot == FirstZero(old(bitmap[..])) && g.log == old(g.log)
      ensures slot < c.cap ==>
        && k == KHolds(tag, slot) && slot < bitmap.Length && tag < rqs.Length
        && bitmap[..] == old(bitmap[..])[slot := true] && rqs[..] == old(rqs[..])[tag := Some(bio)]
      ensures slot >= c.cap ==> View() == old(View())
    {
      slot := AllocStagingSlot();
      if slot < c.cap {
        rqs[tag] := Some(bio);
        k := KHolds(tag, slot);
        g := g.(slotUse := g.slotUse[slot := InHand], tagUse := g.tagUse[tag := InHand]);
      }
    }

    method Fill(tag: nat, slot: nat, bio: Bio)
      requires Can(KFill) && k == KHolds(tag, slot) && rqs[tag] == Some(bio)
      modifies this`k, staging, cmds
      ensures View() == Apply(c, old(View()), KFill) && k == KReady(tag, slot) && rqs[tag] == Some(bio)
    {
      if bio.isWrite {
        staging[slot] := bio.data;
      }
      cmds[tag] := Cmd(slot, !bio.isWrite);
      k := KReady(tag, slot);
    }

    method CheckRoom() returns (full: bool)
      requires Can(KCheck)
      modifies this`k
      ensures View() == Apply(c, old(View()), KCheck)
      ensures k == if full then KFull(old(k).tag, old(k).slot) else KWriting(old(k).tag, old(k).slot)
      ensures full <==> Advance(reqWrite, c.cap) == reqRead
    {
      full := Advance(reqWrite, c.cap) == reqRead;
      k := if full then KFull(k.tag, k.slot) else KWriting(k.tag, k.slot);
    }

    method WriteRequest(tag: nat, slot: nat, req: Request)
      requires Can(KWrite) && k == KWriting(tag, slot) && req == RequestFor(tag, slot, View().rqs[tag].value)
      modifies this`k, requests
      ensures View() == Apply(c, old(View()), KWrite) && k == KPublishing(tag, slot)
    {
      requests[reqWrite] := req;
      k := KPublishing(tag, slot);
    }

    method PublishRequest()
      requires Can(KPublish)
      modifies this`k, this`g, this`reqWrite
      ensures View() == Apply(c, old(View()), KPublish) && k == KIdle
      ensures g.log == old(g.log) + [Entry(old(k).tag, old(k).slot, rqs[old(k).tag].value.isWrite,
                                           rqs[old(k).tag].value.sector, PageIndex(rqs[old(k).tag].value.sector), rqs[old(k).tag].value.data)]
    {
      ghost var bio := rqs[k.tag].value;
      g := g.(log := g.log + [Entry(k.tag, k.slot, bio.isWrite, bio.sector, PageIndex(bio.sector), bio.data)],
              slotUse := g.slotUse[k.slot := Logged(|g.log|)],
              tagUse := g.tagUse[k.tag := Logged(|g.log|)]);
      reqWrite := Advance(reqWrite, c.cap);
      k := KIdle;
    }

    method BackOut(tag: nat, slot: nat)
      requires Can(KBackOut) && k == KFull(tag, slot)
      modifies this`k, this`g, bitmap, rqs
      ensures View() == Apply(c, old(View()), KBackOut) && k == KIdle && g.log == old(g.log)
      ensures bitmap[..] == old(bitmap[..])[slot := false] && rqs[..] == old(rqs[..])[tag := None]
    {
      bitmap[slot] := false;
      rqs[tag] := None;
      k := KIdle;
      g := g.(slotUse := g.slotUse[slot := Free], tagUse := g.tagUse[tag := Free]);
    }

    // ------------------------------------------------------------ the daemon's accesses

    method SeeRequest() returns (some: bool)
      requires Sized(c, View()) && d.DIdle?
      modifies this`d
      ensures some ==> old(Can(DPoll)) && View() == Apply(c, old(View()), DPoll) && d == DSeen
      ensures !some ==> View() == old(View())
      ensures some <==> reqRead != reqWrite
    {
      some := reqRead != reqWrite;
      if some {
        d := DSeen;
      }
    }

    method FetchRequest() returns (req: Request)
      requires Can(DFetch)
      modifies this`d
      ensures View() == Apply(c, old(View()), DFetch) && d == DGot(req)
    {
      req := requests[reqRead];
      d := DGot(req);
    }

    method CopyIn(req: Request) returns (page: Page)
      requires Can(DCopyIn) && d == DGot(req)
      modifies this`d
      ensures View() == Apply(c, old(View()), DCopyIn) && d == DStoring(req, page)
    {
      page := staging[req.slot];
      d := DStoring(req, page);
    }

    /** The engine has stored the page, or failed to. */
    ghost method Stored(ok: bool, next: map<nat, Page>)
      requires Can(DStore(ok, next))
      modifies this`d, this`g, this`store
      ensures View() == Apply(c, old(View()), DStore(ok, next)) && d == DDone(old(d).req, ResultCode(ok)) && store == next
      ensures SameCounts(g, old(g))
    {
      store := next;
      d := DDone(d.req, ResultCode(ok));
      g := g.(outcomes := g.outcomes + [Outcome(ok, [])]);
    }

    /** The engine has loaded the page, or failed to. */
    ghost method Loaded(ok: bool)
      requires Can(DLoad(ok))
      modifies this`d, this`g
      ensures View() == Apply(c, old(View()), DLoad(ok))
      ensures d == if ok then DLoaded(old(d).req, store[old(d).req.offset]) else DDone(old(d).req, -1)
      ensures SameCounts(g, old(g))
    {
      var page := if ok then store[d.req.offset] else [];
      d := if ok then DLoaded(d.req, page) else DDone(d.req, -1);
      g := g.(outcomes := g.outcomes + [Outcome(ok, page)]);
    }

    method CopyOut(req: Request, page: Page)
      requires Can(DCopyOut) && d == DLoaded(req, page)
      modifies this`d, staging
      ensures View() == Apply(c, old(View()), DCopyOut) && d == DDone(req, 0)
    {
      staging[req.slot] := page;
      d := DDone(req, 0);
    }

    method AdvanceRequests()
      requires Can(DAdvance)
      modifies this`d, this`g, this`reqRead
      ensures View() == Apply(c, old(View()), DAdvance) && d == DAdvanced(old(d).req, old(d).result)
      ensures g == old(g).(polled := old(g.polled) + 1)
    {
      reqRead := Advance(reqRead, c.cap);
      d := DAdvanced(d.req, d.result);
      g := g.(polled := g.polled + 1);
    }

    method WriteCompletion(req: Request, result: int)
      requires Can(DWrite) && d == DAdvanced(req, result)
      modifies this`d, completions
      ensures View() == Apply(c, old(View()), DWrite) && d == DWritten(req, result)
    {
      completions[compWrite] := Completion(req.seqNo, result, req.slot);
      d := DWritten(req, result);
    }

    method PublishCompletion()
      requires Can(DPublish)
      modifies this`d, this`g, this`compWrite
      ensures View() == Apply(c, old(View()), DPublish) && d == DIdle
      ensures g == old(g).(completed := old(g.completed) + 1)
    {
      compWrite := Advance(compWrite, c.cap);
      d := DIdle;
      g := g.(completed := g.completed + 1);
    }

    // ------------------------------------------------------------ the harvester's accesses

    method SeeCompletion() returns (some: bool)
      requires Sized(c, View()) && h.HIdle?
      modifies this`h
      ensures some ==> old(Can(HPoll)) && View() == Apply(c, old(View()), HPoll) && h == HSeen
      ensures !some ==> View() == old(View())
      ensures some <==> compRead != compWrite
    {
      some := compRead != compWrite;
      if some {
        h := HSeen;
      }
    }

    method FetchCompletion() returns (comp: Completion)
      requires Can(HFetch)
      modifies this`h
      ensures View() == Apply(c, old(View()), HFetch) && h == HGot(comp)
    {
      comp := completions[compRead];
      h := HGot(comp);
    }

    method AdvanceCompletions()
      requires Can(HAdvance)
      modifies this`h, this`g, this`compRead
      ensures View() == Apply(c, old(View()), HAdvance) && h == HPopped(old(h).comp)
      ensures g == old(g).(popped := old(g.popped) + 1)
    {
      compRead := Advance(compRead, c.cap);
      h := HPopped(h.comp);
      g := g.(popped := g.popped + 1);
    }

    /** A completion that names no request in flight is dropped. */
    method Deliver(comp: Completion) returns (found: bool)
      requires Can(HDeliver) && h == HPopped(comp)
      modifies this`h, rqs
      ensures View() == Apply(c, old(View()), HDeliver)
      ensures found ==> comp.seqNo >= 1 && h == HDelivered(comp.seqNo - 1, comp.result)
      ensures !found ==> h == HIdle
    {
      var tag := comp.seqNo - 1;
      if tag < 0 || tag >= c.depth || rqs[tag].None? {
        h := HIdle;
        return false;
      }
      if cmds[tag].isRead && comp.result == 0 {
        rqs[tag] := Some(rqs[tag].value.(data := staging[cmds[tag].slot]));
      }
      h := HDelivered(tag, comp.result);
      found := true;
    }

    method FreeStagingSlot(tag: nat, ghost result: int)
      requires Can(HFree) && h == HDelivered(tag, result)
      modifies this`h, this`g, bitmap
      ensures View() == Apply(c, old(View()), HFree) && h == HFreed(tag, result)
      ensures SameCounts(g, old(g))
    {
      var slot := cmds[tag].slot;
      bitmap[slot] := false;
      h := HFreed(tag, result);
      g := g.(slotUse := g.slotUse[slot := Free]);
    }

    method EndRequest(tag: nat, result: int)
      requires Can(HEnd) && h == HFreed(tag, result)
      modifies this`h, this`g, rqs
      ensures View() == Apply(c, old(View()), HEnd) && h == HIdle
      ensures |g.endings| == |old(g.endings)| + 1 && SameCounts(g.(endings := []), old(g).(endings := []))
    {
      g := g.(endings := g.endings + [Ending(result == 0, rqs[tag].value.data)], tagUse := g.tagUse[tag := Free]);
      rqs[tag] := None;
      h := HIdle;
    }

    /** Whatever the code has done so far, the reads it ended OK got the last page written. */
    lemma Delivers()
      requires Good()
      ensures |g.endings| <= |g.log| && forall i | 0 <= i < |g.endings| :: EndedRight(View(), i)
    {
      hide Inv, EndedRight;
      EndToEnd(c, trace, View());
    }

    // ------------------------------------------------------------ the functions

    /** An access just made from a good state `s` leads to a good state. */
    ghost method Record(s: State, step: Step)
      requires ValidConfig(c) && Inv(c, s) && Runs(c, Init(c), trace, s)
      requires Sized(c, s) && Guard(c, s, step) && View() == Apply(c, s, step)
      modifies this`trace
      ensures Good() && trace == old(trace) + [step] && View() == old(View())
      ensures old(Reliably()) && (step.DStore? || step.DLoad? ==> Reliable(s, step)) ==> Reliably()
    {
      hide Inv, Guard, Apply, Runs, ReliableRun;
      StepKeeps(c, s, step);
      if Reliably() && Reliable(s, step) { ReliableOn(c, Init(c), trace, s, step); }
      RunsOne(c, s, step);
      RunsConcat(c, Init(c), trace, s, [step], View());
      trace := trace + [step];
    }

    /** A slot is taken and, for a store, the page copied into it. */
    method Stage(tag: nat, bio: Bio) returns (slot: nat)
      requires Good() && k.KIdle? && tag < c.depth && View().rqs[tag].None?
      modifies this`k, this`g, this`trace, bitmap, rqs, staging, cmds
      ensures Good() && old(trace) <= trace && g.log == old(g.log) && slot == FirstZero(old(bitmap[..]))
      ensures old(Reliably()) ==> Reliably()
      ensures slot >= c.cap ==> k.KIdle? && bitmap[..] == old(bitmap[..]) && rqs[..] == old(rqs[..])
      ensures slot < c.cap ==>
        && k == KReady(tag, slot) && slot < bitmap.Length && tag < rqs.Length
        && bitmap[..] == old(bitmap[..])[slot := true] && rqs[..] == old(rqs[..])[tag := Some(bio)]
    {
      hide Inv, Guard, Apply, Runs, Reliable, Memory.Reliably;
      ghost var s := View();
      InvSized(c, s);
      slot := Take(tag, bio);
      if slot < c.cap {
        Record(s, KAlloc(tag, bio));
        s := View();
        SubmitterCan(c, s);
        Fill(tag, slot, bio);
        Record(s, KFill);
      }
    }

    /** The request is written to the ring, and then published. */
    method PlaceRequest(tag: nat, slot: nat, bio: Bio)
      requires Good() && k == KWriting(tag, slot) && tag < rqs.Length && rqs[tag] == Some(bio)
      modifies this`k, this`g, this`reqWrite, this`trace, requests
      ensures Good() && old(trace) <= trace && k.KIdle?
      ensures old(Reliably()) ==> Reliably()
      ensures g.log == old(g.log) + [Entry(tag, slot, bio.isWrite, bio.sector, PageIndex(bio.sector), bio.data)]
    {
      hide Inv, Guard, Apply, Runs, Reliable, Memory.Reliably;
      ghost var s := View();
      SubmitterCan(c, s);
      WriteRequest(tag, slot, RequestFor(tag, slot, bio));
      Record(s, KWrite);
      s := View();
      SubmitterCan(c, s);
      PublishRequest();
      Record(s, KPublish);
    }

    /** `duvm_ring_submit`: refuses a request exactly when the ring is full. */
    method RingSubmit(tag: nat, slot: nat, bio: Bio) returns (ok: bool)
      requires Good() && k == KReady(tag, slot) && tag < rqs.Length && rqs[tag] == Some(bio)
      modifies this`k, this`g, this`reqWrite, this`trace, requests
      ensures Good() && old(trace) <= trace
      ensures old(Reliably()) ==> Reliably()
      ensures 0 < c.cap && (ok <==> old(Advance(reqWrite, c.cap)) != reqRead)
      ensures ok ==>
        k.KIdle? && g.log == old(g.log) + [Entry(tag, slot, bio.isWrite, bio.sector, PageIndex(bio.sector), bio.data)]
      ensures !ok ==> k == KFull(tag, slot) && g.log == old(g.log)
    {
      hide Inv, Guard, Apply, Runs, Reliable, Memory.Reliably;
      ghost var s := View();
      SubmitterCan(c, s);
      var full := CheckRoom();
      Record(s, KCheck);
      if full {
        return false;
      }
      PlaceRequest(tag, slot, bio);
      ok := true;
    }

    /** A request refused by the ring gives its slot and its tag back. */
    method Withdraw(tag: nat, slot: nat)
      requires Good() && k == KFull(tag, slot) && slot < bitmap.Length && tag < rqs.Length
      modifies this`k, this`g, this`trace, bitmap, rqs
      ensures Good() && old(trace) <= trace && k.KIdle? && g.log == old(g.log)
      ensures old(Reliably()) ==> Reliably()
      ensures bitmap[..] == old(bitmap[..])[slot := false] && rqs[..] == old(rqs[..])[tag := None]
    {
      hide Inv, Guard, Apply, Runs, Reliable, Memory.Reliably;
      ghost var s := View();
      SubmitterCan(c, s);
      BackOut(tag, slot);
      Record(s, KBackOut);
    }

    /**
     `duvm_queue_rq`: the request is published, or nothing is left of it. It is
     published exactly when a staging slot is free and the ring is not full.
     */
    method QueueRq(tag: nat, bio: Bio) returns (accepted: bool)
      requires Good() && k.KIdle? && tag < c.depth && View().rqs[tag].None?
      modifies this`k, this`g, this`reqWrite, this`trace, bitmap, rqs, staging, cmds, requests
      ensures Good() && k.KIdle? && old(trace) <= trace && 0 < c.cap
      ensures old(Reliably()) ==> Reliably()
      ensures accepted <==> old(FirstZero(bitmap[..])) < c.cap && old(Advance(reqWrite, c.cap)) != reqRead
      ensures accepted ==>
        g.log == old(g.log) + [Entry(tag, old(FirstZero(bitmap[..])), bio.isWrite, bio.sector, PageIndex(bio.sector), bio.data)]
      ensures !accepted ==> g.log == old(g.log) && bitmap[..] == old(bitmap[..]) && rqs[..] == old(rqs[..])
    {
      hide Inv, Guard, Apply, Runs, Reliable, Memory.Reliably;
      InvSized(c, View());
      var slot := Stage(tag, bio);
      if slot >= c.cap {
        return false;
      }
      accepted := RingSubmit(tag, slot, bio);
      if !accepted {
        Withdraw(tag, slot);
      }
    }

    /** The engine shares nothing with this memory. One with capacity for the index takes the page. */
    method EngineStore(engine: DaemonEngine, req: Request, page: Page, now: nat, ghost offsets: set<nat>) returns (ok: bool)
      requires engine.Valid() && d == DStoring(req, page) && store == Held(engine)
      modifies engine, engine.policy, engine.backends.Values
      ensures engine.Valid() && LossyStore(old(Held(engine)), req.offset, page, ok, Held(engine))
      ensures View() == old(View()) && trace == old(trace) && d == old(d) && g == old(g) && store == old(store)
      ensures old(Ample(engine.View(), offsets)) && req.offset in offsets ==>
                Ample(engine.View(), offsets) && Reliable(View(), DStore(ok, Held(engine)))
    {
      hide DaemonEngine.Valid, LossyStore, PageMap, Ample, Reliable, LocalStore, SmoothStore, Leaves;
      ghost var e := engine.View();
      var r, victim, _, _, _ := engine.StorePage(req.offset, page, now);
      ok := r.Ok?;
      if Ample(e, offsets) && req.offset in offsets {
        AmpleIsLocal(e, offsets);
        AmpleStores(View(), e, offsets, now, engine.View(), r, victim);
      }
    }

    method EngineLoad(engine: DaemonEngine, req: Request, now: nat, ghost offsets: set<nat>) returns (r: Result<Page>)
      requires engine.Valid() && d == DGot(req) && store == Held(engine)
      modifies engine, engine.policy, engine.backends.Values
      ensures engine.Valid() && Held(engine) == old(Held(engine)) && LossyLoad(old(Held(engine)), req.offset, r)
      ensures View() == old(View()) && trace == old(trace) && d == old(d) && g == old(g) && store == old(store)
      ensures old(Ample(engine.View(), offsets)) ==> Ample(engine.View(), offsets) && Reliable(View(), DLoad(r.Ok?))
    {
      hide DaemonEngine.Valid, PageMap, Ample, Reliable, LocalLoad, Leaves, EnginePlaces.Quiet;
      ghost var e := engine.View();
      r := engine.LoadPage(req.offset, now);
      if Ample(e, offsets) {
        AmpleIsLocal(e, offsets);
        AmpleLoads(View(), e, offsets, now, engine.View(), r);
      }
    }

    method StageIn(req: Request) returns (page: Page)
      requires Good() && d == DGot(req) && req.op == OP_STORE
      modifies this`d, this`trace
      ensures Good() && old(trace) <= trace && d == DStoring(req, page)
      ensures old(Reliably()) ==> Reliably()
    {
      hide Inv, Guard, Apply, Runs, Reliable, Memory.Reliably;
      ghost var s := View();
      DaemonCan(c, s);
      page := CopyIn(req);
      Record(s, DCopyIn);
    }

    ghost method StoreDone(ok: bool, next: map<nat, Page>)
      requires Good() && d.DStoring? && LossyStore(store, d.req.offset, d.page, ok, next)
      modifies this`d, this`g, this`store, this`trace
      ensures Good() && old(trace) <= trace && SameCounts(g, old(g))
      ensures d == DDone(old(d).req, ResultCode(ok)) && store == next
      ensures old(Reliably() && Reliable(View(), DStore(ok, next))) ==> Reliably()
    {
      hide Inv, Guard, Apply, Runs, LossyStore, Memory.Reliably, Reliable;
      ghost var s := View();
      InvSized(c, s);
      StoreCan(c, s, ok, next);
      Stored(ok, next);
      Record(s, DStore(ok, next));
    }

    lemma StoreInOffsets(offsets: set<nat>)
      requires Good() && d.DGot? && d.req.op == OP_STORE && WritesTo(g.log, offsets)
      ensures d.req.offset in offsets
    {
      StoreIsLogged(c, View(), offsets);
    }

    /** The driver sends nothing else. */
    lemma OnlyStoresAndLoads()
      requires Good() && d.DGot?
      ensures d.req.op == OP_STORE || d.req.op == OP_LOAD
    {
      hide Inv;
      InvSized(c, View());
      NeverRejects(c, View());
    }

    method LoadDone(req: Request, r: Result<Page>)
      requires Good() && d == DGot(req) && req.op == OP_LOAD && LossyLoad(store, req.offset, r)
      modifies this`d, this`g, this`trace, staging
      ensures Good() && old(trace) <= trace && SameCounts(g, old(g)) && d == DDone(req, ResultCode(r.Ok?))
      ensures old(Reliably() && Reliable(View(), DLoad(r.Ok?))) ==> Reliably()
    {
      hide Inv, Guard, Apply, Runs, Memory.Reliably, Reliable;
      ghost var s := View();
      DaemonCan(c, s);
      Loaded(r.Ok?);
      Record(s, DLoad(r.Ok?));
      if r.Ok? {
        s := View();
        DaemonCan(c, s);
        CopyOut(req, r.value);
        Record(s, DCopyOut);
      }
    }

    method StoreStaged(engine: DaemonEngine, req: Request, page: Page, now: nat, ghost offsets: set<nat>) returns (result: int)
      requires Good() && d == DStoring(req, page) && engine.Valid() && store == Held(engine)
      modifies this`d, this`g, this`store, this`trace, engine, engine.policy, engine.backends.Values
      ensures Good() && old(trace) <= trace && SameCounts(g, old(g)) && d == DDone(req, result)
      ensures engine.Valid() && store == Held(engine)
      ensures old(Assured(engine, offsets)) && req.offset in offsets ==> Assured(engine, offsets)
    {
      hide Memory.Good, Memory.Reliably, Memory.View, Held, DaemonEngine.Valid, LossyStore, Ample, WritesTo, Reliable;
      var ok := EngineStore(engine, req, page, now, offsets);
      StoreDone(ok, Held(engine));
      result := if ok then 0 else -1;
    }

    method AnswerStore(engine: DaemonEngine, req: Request, now: nat, ghost offsets: set<nat>) returns (result: int)
      requires Good() && d == DGot(req) && req.op == OP_STORE && engine.Valid() && store == Held(engine)
      modifies this`d, this`g, this`store, this`trace, engine, engine.policy, engine.backends.Values
      ensures Good() && old(trace) <= trace && SameCounts(g, old(g)) && d == DDone(req, result)
      ensures engine.Valid() && store == Held(engine)
      ensures old(Assured(engine, offsets)) ==> Assured(engine, offsets)
    {
      hide Memory.Good, Memory.Reliably, Memory.View, Held, DaemonEngine.Valid, Ample, WritesTo;
      if WritesTo(g.log, offsets) { StoreInOffsets(offsets); }
      var page := StageIn(req);
      result := StoreStaged(engine, req, page, now, offsets);
    }

    method AnswerLoad(engine: DaemonEngine, req: Request, now: nat, ghost offsets: set<nat>) returns (result: int)
      requires Good() && d == DGot(req) && req.op == OP_LOAD && engine.Valid() && store == Held(engine)
      modifies this`d, this`g, this`store, this`trace, staging, engine, engine.policy, engine.backends.Values
      ensures Good() && old(trace) <= trace && SameCounts(g, old(g)) && d == DDone(req, result)
      ensures engine.Valid() && store == Held(engine)
      ensures old(Assured(engine, offsets)) ==> Assured(engine, offsets)
    {
      hide Memory.Good, Memory.Reliably, Held, DaemonEngine.Valid, Ample, WritesTo, Reliable;
      var r := EngineLoad(engine, req, now, offsets);
      LoadDone(req, r);
      result := if r.Ok? then 0 else -1;
    }

    /** The daemon answers the request it holds, by the engine. */
    method Answer(engine: DaemonEngine, req: Request, now: nat, ghost offsets: set<nat>) returns (result: int)
      requires Good() && d == DGot(req) && engine.Valid() && store == Held(engine)
      modifies this`d, this`g, this`store, this`trace, staging, engine, engine.policy, engine.backends.Values
      ensures Good() && old(trace) <= trace && SameCounts(g, old(g)) && d == DDone(req, result)
      ensures engine.Valid() && store == Held(engine)
      ensures old(Assured(engine, offsets)) ==> Assured(engine, offsets)
    {
      hide Memory.Good, Memory.Assured, Held, DaemonEngine.Valid;
      if req.op == OP_STORE {
        result := AnswerStore(engine, req, now, offsets);
      } else if req.op == OP_LOAD {
        result := AnswerLoad(engine, req, now, offsets);
      } else {
        result := -1;
        OnlyStoresAndLoads();
        assert false;
      }
    }

    method PostCompletion(req: Request, result: int)
      requires Good() && d == DAdvanced(req, result)
      modifies this`d, this`g, this`trace, this`compWrite, completions
      ensures Good() && old(trace) <= trace && d.DIdle?
      ensures old(Reliably()) ==> Reliably()
      ensures g == old(g).(completed := old(g.completed) + 1)
    {
      hide Inv, Guard, Apply, Runs, Reliable, Memory.Reliably;
      ghost var s := View();
      DaemonCan(c, s);
      WriteCompletion(req, result);
      Record(s, DWrite);
      s := View();
      DaemonCan(c, s);
      PublishCompletion();
      Record(s, DPublish);
    }

    /** The request is consumed and its completion published. */
    method Complete(req: Request, result: int)
      requires Good() && d == DDone(req, result)
      modifies this`d, this`g, this`trace, this`reqRead, this`compWrite, completions
      ensures Good() && old(trace) <= trace && d.DIdle?
      ensures old(Reliably()) ==> Reliably()
      ensures g == old(g).(polled := old(g.polled) + 1, completed := old(g.completed) + 1)
    {
      hide Inv, Guard, Apply, Runs, Reliable, Memory.Reliably;
      ghost var s := View();
      DaemonCan(c, s);
      AdvanceRequests();
      Record(s, DAdvance);
      PostCompletion(req, result);
    }

    /** The oldest unread request, copied out of the ring. */
    method NextRequest() returns (r: Option<Request>)
      requires Good() && d.DIdle?
      modifies this`d, this`trace
      ensures Good() && old(trace) <= trace
      ensures old(Reliably()) ==> Reliably()
      ensures r.Some? <==> g.polled < |g.log|
      ensures d == if r.Some? then DGot(r.value) else DIdle
    {
      hide Inv, Guard, Apply, Runs, Reliable, Memory.Reliably;
      ghost var s := View();
      InvSized(c, s);
      DeliveredInOrder(c, s);
      var some := SeeRequest();
      if !some {
        return None;
      }
      Record(s, DPoll);
      s := View();
      DaemonCan(c, s);
      var req := FetchRequest();
      Record(s, DFetch);
      r := Some(req);
    }

    /**
     `poll_once`: takes one request if there is one, has the engine serve it, and
     publishes the answer.
     */
    method PollOnce(engine: DaemonEngine, now: nat, ghost offsets: set<nat>) returns (some: bool)
      requires Good() && d.DIdle? && engine.Valid() && store == Held(engine)
      modifies this`d, this`g, this`store, this`trace, this`reqRead, this`compWrite, staging, completions
      modifies engine, engine.policy, engine.backends.Values
      ensures Good() && old(trace) <= trace && d.DIdle?
      ensures engine.Valid() && store == Held(engine)
      ensures some <==> old(g.polled) < |old(g.log)|
      ensures var n := if some then 1 else 0;
        SameCounts(g, old(g).(polled := old(g.polled) + n, completed := old(g.completed) + n))
      ensures old(Assured(engine, offsets)) ==> Assured(engine, offsets)
    {
      hide Memory.Good, Memory.Reliably, Held, DaemonEngine.Valid, Ample, WritesTo;
      var r := NextRequest();
      some := r.Some?;
      if some {
        var result := Answer(engine, r.value, now, offsets);
        Complete(r.value, result);
      }
    }

    /** The daemon's inner loop: every published request is answered. */
    method DrainRequests(engine: DaemonEngine, now: nat, ghost offsets: set<nat>)
      requires Good() && d.DIdle? && engine.Valid() && store == Held(engine)
      modifies this`d, this`g, this`store, this`trace, this`reqRead, this`compWrite, staging, completions
      modifies engine, engine.policy, engine.backends.Values
      ensures Good() && old(trace) <= trace && d.DIdle?
      ensures engine.Valid() && store == Held(engine)
      ensures SameCounts(g, old(g).(polled := |old(g.log)|, completed := |old(g.log)|))
      ensures old(Assured(engine, offsets)) ==> Assured(engine, offsets)
    {
      hide Memory.Good, Memory.Assured, Held, DaemonEngine.Valid;
      var more := true;
      while more
        invariant Good() && old(trace) <= trace && d.DIdle?
        invariant engine.Valid() && store == Held(engine)
        invariant old(Assured(engine, offsets)) ==> Assured(engine, offsets)
        invariant SameCounts(g, old(g).(polled := g.polled, completed := g.completed))
        invariant !more ==> g.polled >= |g.log|
        decreases |g.log| - g.polled, more
      {
        IdleCounts();
        more := PollOnce(engine, now, offsets);
      }
      IdleCounts();
    }

    /** Between two requests the daemon has answered all it has taken. */
    lemma IdleCounts()
      requires Good() && d.DIdle?
      ensures g.completed == g.polled <= |g.log| && g.popped <= g.completed
    {
    }

    // ------------------------------------------------------------ harvesting

    method PopCompletion() returns (comp: Completion)
      requires Good() && h.HSeen?
      modifies this`h, this`g, this`trace, this`compRead
      ensures Good() && old(trace) <= trace && h == HPopped(comp)
      ensures old(Reliably()) ==> Reliably()
      ensures g == old(g).(popped := old(g.popped) + 1)
    {
      hide Inv, Guard, Apply, Runs, Reliable, Memory.Reliably;
      ghost var s := View();
      HarvesterCan(c, s);
      comp := FetchCompletion();
      Record(s, HFetch);
      s := View();
      HarvesterCan(c, s);
      AdvanceCompletions();
      Record(s, HAdvance);
    }

    /** `duvm_ring_poll_completion`: the oldest unread completion. */
    method PollCompletion() returns (r: Option<Completion>)
      requires Good() && h.HIdle?
      modifies this`h, this`g, this`trace, this`compRead
      ensures Good() && old(trace) <= trace
      ensures old(Reliably()) ==> Reliably()
      ensures r.Some? <==> old(g.popped) < g.completed < old(g.popped) + c.cap
      ensures r.Some? ==> h == HPopped(r.value) && g == old(g).(popped := old(g.popped) + 1)
      ensures r.None? ==> h.HIdle? && g == old(g)
    {
      hide Inv, Guard, Apply, Runs, Reliable, Memory.Reliably;
      ghost var s := View();
      InvSized(c, s);
      DeliveredInOrder(c, s);
      var some := SeeCompletion();
      if !some {
        return None;
      }
      Record(s, HPoll);
      var comp := PopCompletion();
      r := Some(comp);
    }

    method EndDelivered(tag: nat, result: int)
      requires Good() && h == HDelivered(tag, result)
      modifies this`h, this`g, this`trace, bitmap, rqs
      ensures Good() && old(trace) <= trace && h.HIdle?
      ensures old(Reliably()) ==> Reliably()
      ensures SameCounts(g.(endings := []), old(g).(endings := []))
    {
      hide Inv, Guard, Apply, Runs, Reliable, Memory.Reliably;
      ghost var s := View();
      HarvesterCan(c, s);
      FreeStagingSlot(tag, result);
      Record(s, HFree);
      s := View();
      HarvesterCan(c, s);
      EndRequest(tag, result);
      Record(s, HEnd);
    }

    /** Delivers a load's page, frees the slot and ends the request; a completion of no request is skipped. */
    method Finish(comp: Completion)
      requires Good() && h == HPopped(comp)
      modifies this`h, this`g, this`trace, bitmap, rqs
      ensures Good() && old(trace) <= trace && h.HIdle?
      ensures old(Reliably()) ==> Reliably()
      ensures SameCounts(g.(endings := []), old(g).(endings := []))
    {
      hide Inv, Guard, Apply, Runs, Reliable, Memory.Reliably;
      ghost var s := View();
      HarvesterCan(c, s);
      var found := Deliver(comp);
      Record(s, HDeliver);
      if found {
        EndDelivered(comp.seqNo - 1, comp.result);
      }
    }

    /** The harvester's inner loop: every completion published is harvested and its request ended, unless they fill the ring. */
    method DrainCompletions()
      requires Good() && h.HIdle?
      modifies this`h, this`g, this`trace, this`compRead, bitmap, rqs
      ensures Good() && old(trace) <= trace && h.HIdle?
      ensures old(Reliably()) ==> Reliably()
      ensures |g.endings| == g.popped && g.completed == old(g.completed) && g.log == old(g.log)
      ensures g.popped == if old(g.completed) < old(g.popped) + c.cap then g.completed else old(g.popped)
    {
      hide Memory.Good, Memory.Reliably;
      IdleEnded();
      var more := true;
      while more
        invariant Good() && old(trace) <= trace && h.HIdle? && (old(Reliably()) ==> Reliably())
        invariant g.log == old(g.log) && g.completed == old(g.completed)
        invariant old(g.popped) <= g.popped <= g.completed
        invariant old(g.completed) >= old(g.popped) + c.cap ==> g.popped == old(g.popped)
        invariant !more ==> !(g.popped < g.completed < g.popped + c.cap)
        decreases g.completed - g.popped, more
      {
        IdleEnded();
        var r := PollCompletion();
        if r.Some? {
          Finish(r.value);
        }
        more := r.Some?;
      }
      IdleEnded();
    }

    /** Between two completions the harvester has ended all it has taken. */
    lemma IdleEnded()
      requires Good() && h.HIdle?
      ensures |g.endings| == g.popped <= g.completed && 0 < c.cap
    {
    }

    // ------------------------------------------------------------ the whole device

    /** While the engine does its part, every write ended is a success, and so is every read ended of an index written before. */
    lemma Fulfils()
      requires Good() && Reliably()
      ensures |g.endings| <= |g.log| && forall i | 0 <= i < |g.endings| && Due(g.log, i) :: g.endings[i].ok
    {
      hide Inv, Due, ReliableRun, EndedRight;
      EndToEnd(c, trace, View());
      forall i | 0 <= i < |g.endings| && Due(g.log, i) ensures g.endings[i].ok {
        AllSucceed(c, trace, View(), i);
      }
    }

    /** All threads between two calls, and the engine in step. */
    ghost predicate Ready(engine: DaemonEngine, offsets: set<nat>)
      reads this, requests, completions, staging, bitmap, cmds, rqs
      reads engine, engine.policy, engine.backends.Values
    {
      && Good() && k.KIdle? && d.DIdle? && h.HIdle?
      && engine.Valid() && store == Held(engine) && Assured(engine, offsets)
    }

    /** A request under a tag not in use. */
    method Submit(engine: DaemonEngine, tag: nat, bio: Bio, ghost offsets: set<nat>)
      requires Ready(engine, offsets) && tag < rqs.Length && rqs[tag].None?
      requires bio.isWrite ==> PageIndex(bio.sector) in offsets
      modifies this`k, this`g, this`reqWrite, this`trace, bitmap, rqs, staging, cmds, requests
      ensures Ready(engine, offsets)
    {
      hide Memory.Good, Memory.View, Memory.Reliably, Held, DaemonEngine.Valid, Ample, WritesTo;
      TagFree(tag);
      ghost var log := g.log;
      ghost var slot := FirstZero(bitmap[..]);
      var accepted := QueueRq(tag, bio);
      WriteGrows(log, Entry(tag, slot, bio.isWrite, bio.sector, PageIndex(bio.sector), bio.data), offsets);
    }

    lemma TagFree(tag: nat)
      requires Good() && tag < rqs.Length && rqs[tag].None?
      ensures tag < c.depth && |View().rqs| == c.depth && View().rqs[tag].None?
    {
      hide Inv;
      InvSized(c, View());
    }

    method Work(engine: DaemonEngine, job: Job, ghost offsets: set<nat>)
      requires Ready(engine, offsets)
      requires job.Queue? && job.bio.isWrite ==> PageIndex(job.bio.sector) in offsets
      modifies this`k, this`d, this`h, this`g, this`store, this`trace
      modifies this`reqWrite, this`reqRead, this`compWrite, this`compRead
      modifies bitmap, rqs, staging, cmds, requests, completions
      modifies engine, engine.policy, engine.backends.Values
      ensures Ready(engine, offsets)
    {
      hide Memory.Good, Memory.Assured, Memory.View, Held, DaemonEngine.Valid;
      match job {
        case Queue(tag, bio) =>
          if tag < rqs.Length && rqs[tag].None? {
            Submit(engine, tag, bio, offsets);
          }
        case Poll(now) => DrainRequests(engine, now, offsets);
        case Harvest => Reap(engine, offsets);
      }
    }

    /**
     The whole device over an engine with local backends and capacity for every index written:
     requests are submitted, answered and harvested in any order, and every write that ended,
     and every read that ended of an index written before, ended as a success, the reads with
     the page written last. A job under a tag in use is not submitted.
     */
    method Serve(engine: DaemonEngine, jobs: seq<Job>, ghost offsets: set<nat>)
      requires Ready(engine, offsets)
      requires forall j | 0 <= j < |jobs| && jobs[j].Queue? && jobs[j].bio.isWrite :: PageIndex(jobs[j].bio.sector) in offsets
      modifies this`k, this`d, this`h, this`g, this`store, this`trace
      modifies this`reqWrite, this`reqRead, this`compWrite, this`compRead
      modifies bitmap, rqs, staging, cmds, requests, completions
      modifies engine, engine.policy, engine.backends.Values
      ensures Ready(engine, offsets)
      ensures |g.endings| <= |g.log|
      ensures forall i | 0 <= i < |g.endings| && Due(g.log, i) :: g.endings[i].ok
      ensures forall i | 0 <= i < |g.endings| :: EndedRight(View(), i)
    {
      hide Memory.Ready, Due, EndedRight;
      var j := 0;
      while j < |jobs|
        invariant 0 <= j <= |jobs| && Ready(engine, offsets)
      {
        Work(engine, jobs[j], offsets);
        j := j + 1;
      }
      ReadyFulfils(engine, offsets);
    }

    lemma ReadyFulfils(engine: DaemonEngine, offsets: set<nat>)
      requires Ready(engine, offsets)
      ensures |g.endings| <= |g.log| && forall i | 0 <= i < |g.endings| && Due(g.log, i) :: g.endings[i].ok
      ensures forall i | 0 <= i < |g.endings| :: EndedRight(View(), i)
    {
      hide Memory.Good, Memory.Reliably, Memory.View, Due, EndedRight;
      Fulfils();
      Delivers();
    }

    method Reap(engine: DaemonEngine, ghost offsets: set<nat>)
      requires Ready(engine, offsets)
      modifies this`h, this`g, this`trace, this`compRead, bitmap, rqs
      ensures Ready(engine, offsets)
    {
      hide Memory.Good, Memory.Reliably, Held, DaemonEngine.Valid, Ample, WritesTo;
      DrainCompletions();
    }
  }

  lemma AmpleIsLocal(e: EState, offsets: set<nat>)
    requires Ample(e, offsets)
    ensures AllLocal(e.backs) && Tracked(e)
  {
  }

  /** From a good state the submitter can always go on. */
  lemma SubmitterCan(c: Config, s: State)
    requires Inv(c, s)
    ensures Sized(c, s)
    ensures s.k.KHolds? ==> Guard(c, s, KFill)
    ensures s.k.KReady? ==> Guard(c, s, KCheck)
    ensures s.k.KWriting? ==> Guard(c, s, KWrite)
    ensures s.k.KPublishing? ==> Guard(c, s, KPublish)
    ensures s.k.KFull? ==> Guard(c, s, KBackOut)
  {
    hide RequestsHold, CompletionsHold, SlotsOwned, TagsOwned, HandFilled, HandWritten, DaemonAt, HarvesterAt;
    hide StoresStaged, LoadsStaged, StoreSound, LoadsSound, EndingsSound;
  }

  /** From a good state the daemon can always go on. */
  lemma DaemonCan(c: Config, s: State)
    requires Inv(c, s)
    ensures Sized(c, s)
    ensures s.d.DSeen? ==> Guard(c, s, DFetch)
    ensures s.d.DGot? && s.d.req.op == OP_STORE ==> Guard(c, s, DCopyIn)
    ensures s.d.DGot? && s.d.req.op == OP_LOAD ==> Guard(c, s, DLoad(false))
    ensures s.d.DGot? && s.d.req.op == OP_LOAD && s.d.req.offset in s.store ==> Guard(c, s, DLoad(true))
    ensures s.d.DLoaded? ==> Guard(c, s, DCopyOut)
    ensures s.d.DDone? ==> Guard(c, s, DAdvance)
    ensures s.d.DAdvanced? ==> Guard(c, s, DWrite)
    ensures s.d.DWritten? ==> Guard(c, s, DPublish)
  {
    hide RequestsHold, CompletionsHold, HandHeld, HandFilled, HandWritten, TagsOwned, HarvesterAt;
    hide StoresStaged, LoadsStaged, StoreSound, LoadsSound, EndingsSound;
    if s.g.polled < |s.g.log| { TagInFlight(c, s, s.g.polled); }
  }

  /** Whatever the engine makes of a store is a step the protocol allows. */
  lemma StoreCan(c: Config, s: State, ok: bool, next: map<nat, Page>)
    requires Sized(c, s) && s.d.DStoring? && LossyStore(s.store, s.d.req.offset, s.d.page, ok, next)
    ensures Guard(c, s, DStore(ok, next))
  {
  }

  /** From a good state the harvester can always go on. */
  lemma HarvesterCan(c: Config, s: State)
    requires Inv(c, s)
    ensures Sized(c, s)
    ensures s.h.HSeen? ==> Guard(c, s, HFetch)
    ensures s.h.HGot? ==> Guard(c, s, HAdvance)
    ensures s.h.HPopped? ==> Guard(c, s, HDeliver)
    ensures s.h.HDelivered? ==> Guard(c, s, HFree)
    ensures s.h.HFreed? ==> Guard(c, s, HEnd)
  {
    hide RequestsHold, CompletionsHold, HandHeld, HandFilled, HandWritten, TagsOwned, SlotsOwned, DaemonAt;
    hide StoresStaged, LoadsStaged, StoreSound, LoadsSound, EndingsSound;
    if !s.h.HIdle? { TagInFlight(c, s, |s.g.endings|); }
  }
}
