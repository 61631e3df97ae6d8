/**
 The asynchronous swap protocol between the block driver and the daemon, as a
 step system. Three threads run over shared memory: the submitter
 (`duvm_queue_rq`), the daemon (`poll_once`) and the harvester
 (`duvm_completion_thread`). Every step is one access to a shared location; any
 interleaving of the three is a run.

 `Guard` and `Apply` look only at what the code can see. The `History` record is
 written, never read: it numbers the requests in the order they are published
 and remembers what became of each.
 */
module SwapProtocol {
  import opened Bits
  import opened Pages

  const OP_STORE: nat := 1
  const OP_LOAD: nat := 2
  const PAGE_SECTORS: nat := 8

  /** Ring capacity (also the number of staging slots) and blk-mq queue depth. */
  datatype Config = Config(cap: nat, depth: nat)

  ghost predicate ValidConfig(c: Config) {
    IsPow2(c.cap)
  }

  datatype Request = Request(op: nat, seqNo: nat, offset: nat, slot: nat)
  datatype Completion = Completion(seqNo: nat, result: int, slot: nat)
  /** Per-request driver data, indexed by blk-mq tag. */
  datatype Cmd = Cmd(slot: nat, isRead: bool)
  /** A single-page block request: direction, first sector, page contents. */
  datatype Bio = Bio(isWrite: bool, sector: nat, data: Page)

  function PageIndex(sector: nat): nat {
    sector / PAGE_SECTORS
  }

  // -------------------------------------------------------------- thread positions

  datatype Submitter =
    | KIdle
    | KHolds(tag: nat, slot: nat)       // slot taken, staging not yet written
    | KReady(tag: nat, slot: nat)       // staging and cmd written
    | KWriting(tag: nat, slot: nat)     // ring seen not full
    | KPublishing(tag: nat, slot: nat)  // entry written, index not yet
    | KFull(tag: nat, slot: nat)        // ring seen full

  datatype Daemon =
    | DIdle
    | DSeen                                    // ring seen not empty
    | DGot(req: Request)                       // entry copied
    | DStoring(req: Request, page: Page)       // STORE: staging copied in
    | DLoaded(req: Request, page: Page)        // LOAD: page in local buffer
    | DDone(req: Request, result: int)         // engine call finished
    | DAdvanced(req: Request, result: int)     // request index advanced
    | DWritten(req: Request, result: int)      // completion written, index not yet

  datatype Harvester =
    | HIdle
    | HSeen
    | HGot(comp: Completion)
    | HPopped(comp: Completion)                // completion index advanced
    | HDelivered(tag: nat, result: int)        // page copied to the bio
    | HFreed(tag: nat, result: int)            // slot returned

  // -------------------------------------------------------------- history

  datatype Entry = Entry(tag: nat, slot: nat, isWrite: bool, sector: nat, idx: nat, data: Page)
  datatype Outcome = Outcome(ok: bool, page: Page)
  datatype Ending = Ending(ok: bool, data: Page)
  datatype Use = Free | InHand | Logged(at: nat)

  /**
   `log`: requests in publication order; `outcomes[i]`: what the engine answered
   to `log[i]`; `endings[i]`: how `log[i]` was ended. `polled`, `completed` and
   `popped` count the advances of the daemon's request index, its completion
   index and the harvester's completion index.
   */
  datatype History = History(
    log: seq<Entry>, outcomes: seq<Outcome>, endings: seq<Ending>,
    polled: nat, completed: nat, popped: nat,
    slotUse: seq<Use>, tagUse: seq<Use>)

  datatype State = State(
    reqWrite: nat, reqRead: nat, compWrite: nat, compRead: nat,
    requests: seq<Request>, completions: seq<Completion>, staging: seq<Page>,
    bitmap: seq<bool>, cmds: seq<Cmd>, rqs: seq<Option<Bio>>,
    k: Submitter, d: Daemon, h: Harvester,
    store: map<nat, Page>,
    g: History)

  /** An initialised ring, a connected daemon with a fresh engine, no request in flight. */
  function Init(c: Config): State {
    State(0, 0, 0, 0,
          seq(c.cap, _ => Request(0, 0, 0, 0)), seq(c.cap, _ => Completion(0, 0, 0)), seq(c.cap, _ => []),
          seq(c.cap, _ => false), seq(c.depth, _ => Cmd(0, false)), seq(c.depth, _ => None),
          KIdle, DIdle, HIdle, map[],
          History([], [], [], 0, 0, 0, seq(c.cap, _ => Free), seq(c.depth, _ => Free)))
  }

  /** `find_first_zero_bit`: the least clear bit, or the length when there is none. */
  function FirstZero(bits: seq<bool>): (b: nat)
    ensures b <= |bits|
    ensures b < |bits| ==> !bits[b]
    ensures forall i | 0 <= i < b :: bits[i]
  {
    if bits == [] then 0
    else if !bits[0] then 0
    else
      var r := FirstZero(bits[1..]);
      assert forall i | 0 < i < 1 + r :: bits[i] == bits[1..][i - 1];
      1 + r
  }

  /** The ring entry `duvm_queue_rq` builds for a tagged request. */
  function RequestFor(tag: nat, slot: nat, bio: Bio): Request {
    Request(if bio.isWrite then OP_STORE else OP_LOAD, tag + 1, PageIndex(bio.sector), slot)
  }

  function ResultCode(ok: bool): int {
    if ok then 0 else -1
  }

  // -------------------------------------------------------------- steps

  datatype Step =
    | KAlloc(tag: nat, bio: Bio) | KFill | KCheck | KWrite | KPublish | KBackOut
    | DPoll | DFetch | DCopyIn | DStore(ok: bool, next: map<nat, Page>) | DLoad(ok: bool) | DReject
    | DCopyOut | DAdvance | DWrite | DPublish
    | HPoll | HFetch | HAdvance | HDeliver | HFree | HEnd

  /** Array sizes: fixed when the ring is initialised, unchanged by every step. */
  predicate Sized(c: Config, s: State) {
    && c.cap > 0
    && |s.requests| == |s.completions| == |s.staging| == |s.bitmap| == |s.g.slotUse| == c.cap
    && |s.cmds| == |s.rqs| == |s.g.tagUse| == c.depth
    && s.reqWrite < c.cap && s.reqRead < c.cap && s.compWrite < c.cap && s.compRead < c.cap
  }

  /** The submitter's request is one blk-mq handed it. */
  predicate Holding(c: Config, s: State)
    requires Sized(c, s)
  {
    !s.k.KIdle? ==> s.k.tag < c.depth && s.k.slot < c.cap && s.rqs[s.k.tag].Some?
  }

  /**
   When a step may be taken: its thread is at that point of the code, and the
   memory it touches is inside its array.
   */
  predicate Guard(c: Config, s: State, step: Step)
    requires Sized(c, s)
  {
    match step
    case KAlloc(tag, bio) =>
      s.k.KIdle? && tag < c.depth && s.rqs[tag].None? && FirstZero(s.bitmap) < c.cap
    case KFill => s.k.KHolds? && Holding(c, s)
    case KCheck => s.k.KReady? && Holding(c, s)
    case KWrite => s.k.KWriting? && Holding(c, s)
    case KPublish => s.k.KPublishing? && Holding(c, s)
    case KBackOut => s.k.KFull? && Holding(c, s)
    case DPoll => s.d.DIdle? && s.reqRead != s.reqWrite
    case DFetch => s.d.DSeen?
    case DCopyIn => s.d.DGot? && s.d.req.op == OP_STORE && s.d.req.slot < c.cap
    case DStore(ok, next) => s.d.DStoring? && LossyStore(s.store, s.d.req.offset, s.d.page, ok, next)
    case DLoad(ok) => s.d.DGot? && s.d.req.op == OP_LOAD && (ok ==> s.d.req.offset in s.store)
    case DReject => s.d.DGot? && s.d.req.op != OP_STORE && s.d.req.op != OP_LOAD
    case DCopyOut => s.d.DLoaded? && s.d.req.slot < c.cap
    case DAdvance => s.d.DDone?
    case DWrite => s.d.DAdvanced?
    case DPublish => s.d.DWritten?
    case HPoll => s.h.HIdle? && s.compRead != s.compWrite
    case HFetch => s.h.HSeen?
    case HAdvance => s.h.HGot?
    case HDeliver =>
      && s.h.HPopped?
      && var tag := s.h.comp.seqNo - 1;
      (0 <= tag < c.depth && s.rqs[tag].Some? && s.cmds[tag].isRead && s.h.comp.result == 0
       ==> s.cmds[tag].slot < c.cap)
    case HFree => s.h.HDelivered? && s.h.tag < c.depth && s.cmds[s.h.tag].slot < c.cap
    case HEnd => s.h.HFreed? && s.h.tag < c.depth && s.rqs[s.h.tag].Some?
  }

  function Apply(c: Config, s: State, step: Step): State
    requires Sized(c, s) && Guard(c, s, step)
  {
    match step
    case KAlloc(_, _) | KFill | KCheck | KWrite | KPublish | KBackOut => ApplySubmitter(c, s, step)
    case HPoll | HFetch | HAdvance | HDeliver | HFree | HEnd => ApplyHarvester(c, s, step)
    case _ => ApplyDaemon(c, s, step)
  }

  predicate IsSubmitterStep(step: Step) {
    step.KAlloc? || step.KFill? || step.KCheck? || step.KWrite? || step.KPublish? || step.KBackOut?
  }

  predicate IsHarvesterStep(step: Step) {
    step.HPoll? || step.HFetch? || step.HAdvance? || step.HDeliver? || step.HFree? || step.HEnd?
  }

  /** `duvm_queue_rq` with `duvm_alloc_staging_slot` and `duvm_ring_submit` inlined. */
  function ApplySubmitter(c: Config, s: State, step: Step): State
    requires Sized(c, s) && Guard(c, s, step) && IsSubmitterStep(step)
  {
    match step
    case KAlloc(tag, bio) =>
      var slot := FirstZero(s.bitmap);
      s.(bitmap := s.bitmap[slot := true],
         rqs := s.rqs[tag := Some(bio)],
         k := KHolds(tag, slot),
         g := s.g.(slotUse := s.g.slotUse[slot := InHand], tagUse := s.g.tagUse[tag := InHand]))
    case KFill =>
      var bio := s.rqs[s.k.tag].value;
      s.(staging := if bio.isWrite then s.staging[s.k.slot := bio.data] else s.staging,
         cmds := s.cmds[s.k.tag := Cmd(s.k.slot, !bio.isWrite)],
         k := KReady(s.k.tag, s.k.slot))
    case KCheck =>
      if Advance(s.reqWrite, c.cap) == s.reqRead then s.(k := KFull(s.k.tag, s.k.slot))
      else s.(k := KWriting(s.k.tag, s.k.slot))
    case KWrite =>
      s.(requests := s.requests[s.reqWrite := RequestFor(s.k.tag, s.k.slot, s.rqs[s.k.tag].value)],
         k := KPublishing(s.k.tag, s.k.slot))
    case KPublish =>
      var bio := s.rqs[s.k.tag].value;
      s.(reqWrite := Advance(s.reqWrite, c.cap),
         k := KIdle,
         g := s.g.(log := s.g.log + [Entry(s.k.tag, s.k.slot, bio.isWrite, bio.sector, PageIndex(bio.sector), bio.data)],
                   slotUse := s.g.slotUse[s.k.slot := Logged(|s.g.log|)],
                   tagUse := s.g.tagUse[s.k.tag := Logged(|s.g.log|)]))
    case KBackOut =>
      s.(bitmap := s.bitmap[s.k.slot := false],
         rqs := s.rqs[s.k.tag := None],
         k := KIdle,
         g := s.g.(slotUse := s.g.slotUse[s.k.slot := Free], tagUse := s.g.tagUse[s.k.tag := Free]))
  }

  /** `KmodRingConsumer::poll_once`, the engine call being one step. */
  function ApplyDaemon(c: Config, s: State, step: Step): State
    requires Sized(c, s) && Guard(c, s, step) && !IsSubmitterStep(step) && !IsHarvesterStep(step)
  {
    match step
    case DPoll => s.(d := DSeen)
    case DFetch => s.(d := DGot(s.requests[s.reqRead]))
    case DCopyIn => s.(d := DStoring(s.d.req, s.staging[s.d.req.slot]))
    case DStore(ok, next) =>
      s.(store := next, d := DDone(s.d.req, ResultCode(ok)),
         g := s.g.(outcomes := s.g.outcomes + [Outcome(ok, [])]))
    case DLoad(ok) =>
      if ok then
        s.(d := DLoaded(s.d.req, s.store[s.d.req.offset]),
           g := s.g.(outcomes := s.g.outcomes + [Outcome(true, s.store[s.d.req.offset])]))
      else
        s.(d := DDone(s.d.req, -1), g := s.g.(outcomes := s.g.outcomes + [Outcome(false, [])]))
    case DReject =>
      s.(d := DDone(s.d.req, -1), g := s.g.(outcomes := s.g.outcomes + [Outcome(false, [])]))
    case DCopyOut =>
      s.(staging := s.staging[s.d.req.slot := s.d.page], d := DDone(s.d.req, 0))
    case DAdvance =>
      s.(reqRead := Advance(s.reqRead, c.cap), d := DAdvanced(s.d.req, s.d.result),
         g := s.g.(polled := s.g.polled + 1))
    case DWrite =>
      s.(completions := s.completions[s.compWrite := Completion(s.d.req.seqNo, s.d.result, s.d.req.slot)],
         d := DWritten(s.d.req, s.d.result))
    case DPublish =>
      s.(compWrite := Advance(s.compWrite, c.cap), d := DIdle,
         g := s.g.(completed := s.g.completed + 1))
  }

  /**
   `duvm_completion_thread` with `duvm_ring_poll_completion` inlined. A completion
   whose sequence number names no request in flight is dropped.
   */
  function ApplyHarvester(c: Config, s: State, step: Step): State
    requires Sized(c, s) && Guard(c, s, step) && IsHarvesterStep(step)
  {
    match step
    case HPoll => s.(h := HSeen)
    case HFetch => s.(h := HGot(s.completions[s.compRead]))
    case HAdvance =>
      s.(compRead := Advance(s.compRead, c.cap), h := HPopped(s.h.comp),
         g := s.g.(popped := s.g.popped + 1))
    case HDeliver =>
      var tag := s.h.comp.seqNo - 1;
      if tag < 0 || tag >= c.depth || s.rqs[tag].None? then s.(h := HIdle)
      else if s.cmds[tag].isRead && s.h.comp.result == 0 then
        s.(rqs := s.rqs[tag := Some(s.rqs[tag].value.(data := s.staging[s.cmds[tag].slot]))],
           h := HDelivered(tag, s.h.comp.result))
      else s.(h := HDelivered(tag, s.h.comp.result))
    case HFree =>
      var slot := s.cmds[s.h.tag].slot;
      s.(bitmap := s.bitmap[slot := false], h := HFreed(s.h.tag, s.h.result),
         g := s.g.(slotUse := s.g.slotUse[slot := Free]))
    case HEnd =>
      s.(rqs := s.rqs[s.h.tag := None], h := HIdle,
         g := s.g.(endings := s.g.endings + [Ending(s.h.result == 0, s.rqs[s.h.tag].value.data)],
                   tagUse := s.g.tagUse[s.h.tag := Free]))
  }

  /** The block layer's count: requests published and not yet ended. */
  function Outstanding(s: State): int {
    |s.g.log| - |s.g.endings|
  }

  /** `steps` lead from `s` to `s'`, each taken where it is enabled. */
  ghost predicate Runs(c: Config, s: State, steps: seq<Step>, s': State)
    decreases |steps|
  {
    if steps == [] then s' == s
    else Sized(c, s) && Guard(c, s, steps[0]) && Runs(c, Apply(c, s, steps[0]), steps[1..], s')
  }
}
